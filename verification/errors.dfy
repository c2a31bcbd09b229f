/**
 * Error consolidation for one pattern: `consolidateError`, `logPattern` and `stop` as the atomic steps of concurrent
 * goroutines. The only shared state is the counter, the stop flag, the published timer and the timers themselves.
 */
module Errors {
  import opened Options

  const WRAP := 0x1_0000_0000

  /** The next atomic action of a goroutine. */
  datatype Pc =
    | Checking              // consolidateError: load the stop flag
    | Adding                // add one to the counter
    | Arming                // the counter became 1: start a timer
    | Publishing(t: nat)    // store the timer
    | Rechecking(t: nat)    // load the stop flag again
    | Cancelling(t: nat)    // t.Stop() on the goroutine's own timer
    | Flushing              // logPattern: swap the counter with 0
    | Raising               // stop: store the stop flag
    | Loading               // stop: load the timer
    | Halting(h: nat)       // stop: t.Stop() on the loaded timer
    | Done

  /** `timers[t]` tells whether timer `t` is still running; `added`, `swapped` and `wraps` record the past. */
  datatype State = State(
    count: nat, stopped: bool, published: Option<nat>, timers: seq<bool>, threads: map<nat, Pc>,
    added: nat, swapped: seq<nat>, wraps: nat)

  datatype Event =
    | Report(id: nat)           // a new goroutine reports an error
    | Stop(id: nat)             // a new goroutine calls stop
    | Advance(id: nat)          // a goroutine takes its next step
    | Fire(t: nat, id: nat)     // a timer expires and its goroutine starts

  const INIT := State(0, false, None, [], map[], 0, [], 0)

  predicate Live(s: State, t: nat) {
    t < |s.timers| && s.timers[t]
  }

  function Move(s: State, id: nat, pc: Pc): State {
    s.(threads := s.threads[id := pc])
  }

  /** `t.Stop()`: true, and the timer is gone, if it was still running. */
  function Cancel(s: State, id: nat, t: nat): State {
    if Live(s, t) then Move(s, id, Flushing).(timers := s.timers[t := false]) else Move(s, id, Done)
  }

  function Proceed(s: State, id: nat): State
    requires id in s.threads
  {
    match s.threads[id]
    case Checking => Move(s, id, if s.stopped then Done else Adding)
    case Adding =>
      var cnt := (s.count + 1) % WRAP;
      Move(s, id, if cnt == 1 then Arming else Done).(count := cnt, added := s.added + 1, wraps := s.wraps + (if cnt == 0 then 1 else 0))
    case Arming => Move(s, id, Publishing(|s.timers|)).(timers := s.timers + [true])
    case Publishing(t) => Move(s, id, Rechecking(t)).(published := Some(t))
    case Rechecking(t) => Move(s, id, if s.stopped then Cancelling(t) else Done)
    case Cancelling(t) => Cancel(s, id, t)
    case Flushing => Move(s, id, Done).(count := 0, swapped := s.swapped + [s.count])
    case Raising => Move(s, id, Loading).(stopped := true)
    case Loading => Move(s, id, if s.published.Some? then Halting(s.published.value) else Done)
    case Halting(t) => Cancel(s, id, t)
    case Done => s
  }

  predicate Enabled(s: State, e: Event) {
    match e
    case Report(id) => id !in s.threads
    case Stop(id) => id !in s.threads
    case Advance(id) => id in s.threads && s.threads[id] != Done
    case Fire(t, id) => Live(s, t) && id !in s.threads
  }

  function Next(s: State, e: Event): State
    requires Enabled(s, e)
  {
    match e
    case Report(id) => Move(s, id, Checking)
    case Stop(id) => Move(s, id, Raising)
    case Advance(id) => Proceed(s, id)
    case Fire(t, id) => Move(s, id, Flushing).(timers := s.timers[t := false])
  }

  ghost predicate Run(ss: seq<State>, es: seq<Event>) {
    && |ss| == |es| + 1 && ss[0] == INIT
    && forall i :: 0 <= i < |es| ==> Enabled(ss[i], es[i]) && ss[i + 1] == Next(ss[i], es[i])
  }

  // ----- one flusher -----

  /** Who is going to swap the counter: a goroutine that is about to arm a timer or to swap, or a running timer. */
  datatype Flusher = Thread(id: nat) | Timer(t: nat)

  predicate IsFlusher(s: State, f: Flusher) {
    match f
    case Thread(id) => id in s.threads && (s.threads[id] == Arming || s.threads[id] == Flushing)
    case Timer(t) => Live(s, t)
  }

  ghost predicate OneFlusher(s: State) {
    && (s.count > 0 <==> exists f :: IsFlusher(s, f))
    && forall f, g :: IsFlusher(s, f) && IsFlusher(s, g) ==> f == g
  }

  function Sum(xs: seq<nat>): nat {
    if xs == [] then 0 else xs[|xs| - 1] + Sum(xs[..|xs| - 1])
  }

  /** Every error added has been swapped out, is in the counter, or was lost when the counter wrapped. */
  ghost predicate Booked(s: State) {
    s.count < WRAP && s.added == Sum(s.swapped) + s.count + WRAP * s.wraps
  }

  ghost predicate Invariant(s: State) {
    Booked(s) && (s.wraps == 0 ==> OneFlusher(s) && forall i :: 0 <= i < |s.swapped| ==> s.swapped[i] > 0)
  }

  /** The flusher after the step, given the one before it. */
  lemma FlusherMoves(s: State, e: Event)
    requires OneFlusher(s) && s.count < WRAP && Enabled(s, e) && Next(s, e).wraps == s.wraps
    ensures OneFlusher(Next(s, e))
  {
    var s' := Next(s, e);
    match e
    case Report(id) => SameFlushers(s, s');
    case Stop(id) => SameFlushers(s, s');
    case Fire(t, id) => Handover(s, s', Timer(t), Thread(id));
    case Advance(id) => FlusherAdvances(s, id);
  }

  lemma FlusherAdvances(s: State, id: nat)
    requires OneFlusher(s) && s.count < WRAP && Enabled(s, Advance(id)) && Next(s, Advance(id)).wraps == s.wraps
    ensures OneFlusher(Next(s, Advance(id)))
  {
    var s' := Next(s, Advance(id));
    match s.threads[id]
    case Adding => FlusherAdds(s, id);
    case Arming => Handover(s, s', Thread(id), Timer(|s.timers|));
    case Cancelling(t) => FlusherCancels(s, id, t);
    case Halting(t) => FlusherCancels(s, id, t);
    case Flushing => LastFlusher(s, s', Thread(id));
    case _ => SameFlushers(s, s');
  }

  lemma FlusherAdds(s: State, id: nat)
    requires OneFlusher(s) && s.count + 1 < WRAP && id in s.threads && s.threads[id] == Adding
    ensures OneFlusher(Proceed(s, id))
  {
    var s' := Proceed(s, id);
    assert s'.count == s.count + 1;
    if s.count == 0 { FirstFlusher(s, s', Thread(id)); } else { SameFlushers(s, s'); }
  }

  lemma FlusherCancels(s: State, id: nat, t: nat)
    requires OneFlusher(s) && id in s.threads && (s.threads[id] == Cancelling(t) || s.threads[id] == Halting(t))
    ensures OneFlusher(Cancel(s, id, t))
  {
    var s' := Cancel(s, id, t);
    if Live(s, t) { Handover(s, s', Timer(t), Thread(id)); } else { SameFlushers(s, s'); }
  }

  lemma SameFlushers(s: State, s': State)
    requires OneFlusher(s) && (s.count > 0 <==> s'.count > 0) && forall f :: IsFlusher(s, f) <==> IsFlusher(s', f)
    ensures OneFlusher(s')
  {
  }

  lemma Handover(s: State, s': State, a: Flusher, b: Flusher)
    requires OneFlusher(s) && s'.count == s.count && IsFlusher(s, a)
    requires forall f :: IsFlusher(s', f) <==> f == b || (f != a && IsFlusher(s, f))
    ensures OneFlusher(s')
  {
    assert IsFlusher(s', b);
  }

  lemma FirstFlusher(s: State, s': State, a: Flusher)
    requires OneFlusher(s) && s.count == 0 && s'.count > 0
    requires forall f :: IsFlusher(s', f) <==> f == a || IsFlusher(s, f)
    ensures OneFlusher(s')
  {
    assert IsFlusher(s', a);
  }

  lemma LastFlusher(s: State, s': State, a: Flusher)
    requires OneFlusher(s) && IsFlusher(s, a) && s'.count == 0
    requires forall f :: IsFlusher(s', f) <==> f != a && IsFlusher(s, f)
    ensures OneFlusher(s')
  {
  }

  lemma StepKeepsInvariant(s: State, e: Event)
    requires Invariant(s) && Enabled(s, e)
    ensures Invariant(Next(s, e)) && s.wraps <= Next(s, e).wraps
  {
    StepKeepsBooked(s, e);
    if Next(s, e).wraps == 0 {
      FlusherMoves(s, e);
      SwapsArePositive(s, e);
    }
  }

  lemma StepKeepsBooked(s: State, e: Event)
    requires Booked(s) && Enabled(s, e)
    ensures Booked(Next(s, e)) && s.wraps <= Next(s, e).wraps
  {
    if e.Advance? && s.threads[e.id] == Flushing {
      assert (s.swapped + [s.count])[..|s.swapped|] == s.swapped;
    } else if e.Advance? && s.threads[e.id] == Adding {
      AddBooked(s, e.id);
    }
  }

  lemma AddBooked(s: State, id: nat)
    requires Booked(s) && id in s.threads && s.threads[id] == Adding
    ensures Booked(Proceed(s, id)) && s.wraps <= Proceed(s, id).wraps
  {
    if s.count + 1 == WRAP {
      assert WRAP * (s.wraps + 1) == WRAP * s.wraps + WRAP;
    }
  }

  lemma SwapsArePositive(s: State, e: Event)
    requires OneFlusher(s) && Enabled(s, e) && forall i :: 0 <= i < |s.swapped| ==> s.swapped[i] > 0
    ensures forall i :: 0 <= i < |Next(s, e).swapped| ==> Next(s, e).swapped[i] > 0
  {
    if e.Advance? && s.threads[e.id] == Flushing {
      assert IsFlusher(s, Thread(e.id));
    } else {
      assert Next(s, e).swapped == s.swapped;
    }
  }

  lemma InitInvariant()
    ensures Invariant(INIT)
  {
    assert !exists f :: IsFlusher(INIT, f);
  }

  /**
   * In every interleaving the errors added so far are the ones swapped out, the ones still in the counter and 2^32 for
   * every time the counter wrapped. As long as it has not, the counter is positive exactly when there is a flusher, and
   * there is never a second one.
   */
  lemma {:induction false} EveryErrorCountedOnce(ss: seq<State>, es: seq<Event>, n: nat)
    requires Run(ss, es) && n < |ss|
    ensures ss[n].added == Sum(ss[n].swapped) + ss[n].count + WRAP * ss[n].wraps
    ensures ss[n].wraps == 0 ==> OneFlusher(ss[n])
    ensures Invariant(ss[n])
  {
    if n == 0 {
      InitInvariant();
    } else {
      EveryErrorCountedOnce(ss, es, n - 1);
      StepKeepsInvariant(ss[n - 1], es[n - 1]);
    }
  }

  /** The addition that makes the full 32-bit counter zero. */
  predicate WrapsAt(s: State, e: Event) {
    e.Advance? && e.id in s.threads && s.threads[e.id] == Adding && s.count == WRAP - 1
  }

  lemma {:induction false} WrapsCounted(ss: seq<State>, es: seq<Event>, n: nat)
    requires Run(ss, es) && n < |ss|
    ensures ss[n].wraps == 0 <==> forall i :: 0 <= i < n ==> !WrapsAt(ss[i], es[i])
  {
    if n > 0 {
      WrapsCounted(ss, es, n - 1);
      EveryErrorCountedOnce(ss, es, n - 1);
      WrapStep(ss[n - 1], es[n - 1]);
    }
  }

  lemma WrapStep(s: State, e: Event)
    requires s.count < WRAP && Enabled(s, e)
    ensures Next(s, e).wraps == s.wraps + if WrapsAt(s, e) then 1 else 0
  {
  }

  /** The errors added are the ones swapped out and the ones in the counter if and only if no addition has wrapped it. */
  lemma BooksBalanceIff(ss: seq<State>, es: seq<Event>, n: nat)
    requires Run(ss, es) && n < |ss|
    ensures ss[n].added == Sum(ss[n].swapped) + ss[n].count <==> forall i :: 0 <= i < n ==> !WrapsAt(ss[i], es[i])
  {
    EveryErrorCountedOnce(ss, es, n);
    WrapsCounted(ss, es, n);
    assert ss[n].wraps > 0 ==> WRAP * ss[n].wraps >= WRAP;
  }

  /** Nobody has anything left to do. */
  ghost predicate Quiet(s: State) {
    (forall id :: id in s.threads ==> s.threads[id] == Done) && forall t: nat :: !Live(s, t)
  }

  /** When all goroutines and timers are through, every added error has been swapped out if and only if the counter has never wrapped. */
  lemma QuietMeansFlushedIff(ss: seq<State>, es: seq<Event>, n: nat)
    requires Run(ss, es) && n < |ss| && Quiet(ss[n])
    ensures ss[n].count == 0 && Sum(ss[n].swapped) == ss[n].added <==> ss[n].wraps == 0
  {
    EveryErrorCountedOnce(ss, es, n);
    if ss[n].wraps == 0 {
      assert forall f :: !IsFlusher(ss[n], f);
    } else {
      assert WRAP * ss[n].wraps >= WRAP;
    }
  }

  // ----- stopping -----

  /** A timer expires before the goroutine that started it has stored it. */
  predicate FiresEarly(s: State, e: Event) {
    e.Fire? && exists id :: id in s.threads && s.threads[id] == Publishing(e.t)
  }

  /** The timer that a goroutine has started and is not yet through with. */
  function TimerOf(pc: Pc): Option<nat> {
    match pc
    case Publishing(t) => Some(t)
    case Rechecking(t) => Some(t)
    case Cancelling(t) => Some(t)
    case _ => None
  }

  ghost predicate Owned(s: State, t: nat) {
    exists id :: id in s.threads && TimerOf(s.threads[id]) == Some(t)
  }

  ghost predicate BeingHalted(s: State, t: nat) {
    exists id :: id in s.threads && (s.threads[id] == Loading || s.threads[id] == Halting(t))
  }

  ghost predicate AwaitsStore(s: State, t: nat) {
    exists id :: id in s.threads && s.threads[id] == Publishing(t)
  }

  /** Every timer belongs to the one goroutine that started it. */
  ghost predicate OneOwner(s: State) {
    && (forall id :: id in s.threads && TimerOf(s.threads[id]).Some? ==> TimerOf(s.threads[id]).value < |s.timers|)
    && forall i, j :: i in s.threads && j in s.threads && TimerOf(s.threads[i]).Some? && TimerOf(s.threads[i]) == TimerOf(s.threads[j]) ==> i == j
  }

  /** A timer that others can see has been stored by its owner. */
  ghost predicate SeenIsStored(s: State) {
    && (s.published.Some? ==> s.published.value < |s.timers| && !AwaitsStore(s, s.published.value))
    && forall id :: id in s.threads && s.threads[id].Halting? ==> s.threads[id].h < |s.timers| && !AwaitsStore(s, s.threads[id].h)
  }

  /** A step moves one goroutine; the others stay where they are. */
  lemma OthersStay(s: State, e: Event, j: nat)
    requires Enabled(s, e) && j != e.id
    ensures j in Next(s, e).threads <==> j in s.threads
    ensures j in s.threads ==> Next(s, e).threads[j] == s.threads[j]
  {
  }

  /** The goroutine that moves keeps its timer, gives it up or starts a new one. */
  lemma OwnTimerMoves(s: State, e: Event)
    requires Enabled(s, e)
    ensures e.id in Next(s, e).threads && |s.timers| <= |Next(s, e).timers|
    ensures var t := TimerOf(Next(s, e).threads[e.id]);
      || t == None
      || (e.id in s.threads && t == TimerOf(s.threads[e.id]))
      || (t == Some(|s.timers|) && |Next(s, e).timers| == |s.timers| + 1)
  {
  }

  lemma OneOwnerKept(s: State, e: Event)
    requires OneOwner(s) && Enabled(s, e)
    ensures OneOwner(Next(s, e))
  {
    var s' := Next(s, e);
    OwnTimerMoves(s, e);
    forall j | j in s'.threads
      ensures j != e.id ==> j in s.threads && s'.threads[j] == s.threads[j]
    {
      if j != e.id { OthersStay(s, e, j); }
    }
  }

  /** `AwaitsStore` changes only when a timer is started and when it is stored. */
  lemma AwaitsStoreMoves(s: State, e: Event, t: nat)
    requires OneOwner(s) && Enabled(s, e)
    ensures AwaitsStore(Next(s, e), t) <==>
      || (AwaitsStore(s, t) && !(e.Advance? && s.threads[e.id] == Publishing(t)))
      || (e.Advance? && s.threads[e.id] == Arming && t == |s.timers|)
  {
    var s' := Next(s, e);
    if AwaitsStore(s, t) {
      var id :| id in s.threads && s.threads[id] == Publishing(t);
      if !(e.Advance? && e.id == id) {
        assert id in s'.threads && s'.threads[id] == Publishing(t);
      } else {
        assert TimerOf(s.threads[id]) == Some(t);
        forall j | j in s'.threads ensures s'.threads[j] != Publishing(t) {
          if j != id { OthersStay(s, e, j); }
        }
      }
    }
    if e.Advance? && s.threads[e.id] == Arming && t == |s.timers| {
      assert s'.threads[e.id] == Publishing(t);
    }
  }

  /** A timer that comes into sight was stored in this step or had been seen before. */
  lemma SeenMoves(s: State, e: Event)
    requires Enabled(s, e)
    ensures |s.timers| <= |Next(s, e).timers|
    ensures Next(s, e).published == s.published || (e.Advance? && s.threads[e.id].Publishing? && Next(s, e).published == Some(s.threads[e.id].t))
    ensures Next(s, e).threads[e.id].Halting? ==> s.published == Some(Next(s, e).threads[e.id].h) && !s.threads[e.id].Publishing? && !s.threads[e.id].Arming?
  {
  }

  lemma SeenIsStoredKept(s: State, e: Event)
    requires OneOwner(s) && SeenIsStored(s) && Enabled(s, e)
    ensures SeenIsStored(Next(s, e))
  {
    var s' := Next(s, e);
    SeenMoves(s, e);
    if s'.published.Some? {
      AwaitsStoreMoves(s, e, s'.published.value);
    }
    forall id | id in s'.threads && s'.threads[id].Halting?
      ensures s'.threads[id].h < |s'.timers| && !AwaitsStore(s', s'.threads[id].h)
    {
      if id != e.id { OthersStay(s, e, id); }
      AwaitsStoreMoves(s, e, s'.threads[id].h);
    }
  }

  /** Which timers run after a step. */
  lemma LiveMoves(s: State, e: Event, t: nat)
    requires Enabled(s, e)
    ensures Live(Next(s, e), t) <==>
      || (Live(s, t) && !(e.Fire? && e.t == t) && !(e.Advance? && (s.threads[e.id] == Cancelling(t) || s.threads[e.id] == Halting(t))))
      || (e.Advance? && s.threads[e.id] == Arming && t == |s.timers|)
  {
  }

  /** A step that ends a running timer: it fires, or somebody stops it. */
  predicate Kills(s: State, e: Event, u: nat) {
    || (e.Fire? && e.t == u)
    || (e.Advance? && e.id in s.threads && (s.threads[e.id] == Cancelling(u) || s.threads[e.id] == Halting(u)))
  }

  /** A step that stores another timer over the running timer `u`. */
  predicate Overwrites(s: State, e: Event, u: nat) {
    && e.Advance? && e.id in s.threads && s.threads[e.id].Publishing? && s.threads[e.id].t != u
    && s.published == Some(u) && Live(s, u)
  }

  /** `u` was overwritten before step `n` while it was running, and nobody has ended it since. */
  ghost predicate Orphaned(ss: seq<State>, es: seq<Event>, n: nat, u: nat)
    requires n <= |es| < |ss|
  {
    exists i :: 0 <= i < n && Overwrites(ss[i], es[i], u) && forall j :: i <= j < n ==> !Kills(ss[j], es[j], u)
  }

  /** Its owner is still to store `u`, or it is the published timer and, once the flag is up, somebody is on the way to stop it. */
  ghost predicate Tracked(s: State, u: nat) {
    AwaitsStore(s, u) || (s.published == Some(u) && (s.stopped ==> Owned(s, u) || BeingHalted(s, u)))
  }

  ghost predicate Ownership(s: State) {
    OneOwner(s) && SeenIsStored(s)
  }

  lemma {:induction false} OwnershipHolds(ss: seq<State>, es: seq<Event>, n: nat)
    requires Run(ss, es) && n < |ss|
    ensures Ownership(ss[n])
  {
    if n > 0 {
      OwnershipHolds(ss, es, n - 1);
      OneOwnerKept(ss[n - 1], es[n - 1]);
      SeenIsStoredKept(ss[n - 1], es[n - 1]);
    }
  }

  /** A timer stays tracked until it is ended or overwritten. */
  lemma TrackedMoves(s: State, e: Event, u: nat)
    requires Ownership(s) && Enabled(s, e) && Tracked(s, u) && Live(s, u) && !Kills(s, e, u) && !Overwrites(s, e, u)
    ensures Tracked(Next(s, e), u)
  {
    AwaitsStoreMoves(s, e, u);
    if AwaitsStore(s, u) {
      if e.Advance? && s.threads[e.id] == Publishing(u) {
        assert TimerOf(Next(s, e).threads[e.id]) == Some(u);
      }
    } else if Next(s, e).stopped {
      PublishedStaysTracked(s, e, u);
    }
  }

  lemma PublishedStaysTracked(s: State, e: Event, u: nat)
    requires Enabled(s, e) && s.published == Some(u) && !Kills(s, e, u) && Next(s, e).stopped
    requires s.stopped ==> Owned(s, u) || BeingHalted(s, u)
    ensures Owned(Next(s, e), u) || BeingHalted(Next(s, e), u)
  {
    var s' := Next(s, e);
    if !s.stopped {
      assert s'.threads[e.id] == Loading;
    } else if Owned(s, u) {
      var id :| id in s.threads && TimerOf(s.threads[id]) == Some(u);
      if id != e.id { OthersStay(s, e, id); }
      assert TimerOf(s'.threads[id]) == Some(u);
    } else {
      var id :| id in s.threads && (s.threads[id] == Loading || s.threads[id] == Halting(u));
      if id != e.id { OthersStay(s, e, id); }
      assert s'.threads[id] == Loading || s'.threads[id] == Halting(u);
    }
  }

  /** In every run, a running timer is tracked or has been orphaned. */
  lemma {:induction false} RunningIsTracked(ss: seq<State>, es: seq<Event>, n: nat, u: nat)
    requires Run(ss, es) && n < |ss| && Live(ss[n], u)
    ensures Tracked(ss[n], u) || Orphaned(ss, es, n, u)
  {
    if n > 0 {
      OwnershipHolds(ss, es, n - 1);
      RunningStep(ss[n - 1], es[n - 1], u);
      if Live(ss[n - 1], u) {
        RunningIsTracked(ss, es, n - 1, u);
        OrphanedLater(ss, es, n - 1, u);
      }
    }
  }

  lemma RunningStep(s: State, e: Event, u: nat)
    requires Ownership(s) && Enabled(s, e) && Live(Next(s, e), u)
    ensures !Live(s, u) ==> Tracked(Next(s, e), u)
    ensures Live(s, u) ==> !Kills(s, e, u) && (Tracked(s, u) && !Overwrites(s, e, u) ==> Tracked(Next(s, e), u))
  {
    LiveMoves(s, e, u);
    if !Live(s, u) {
      assert Next(s, e).threads[e.id] == Publishing(u);
    } else if Tracked(s, u) && !Overwrites(s, e, u) {
      TrackedMoves(s, e, u);
    }
  }

  lemma OrphanedLater(ss: seq<State>, es: seq<Event>, n: nat, u: nat)
    requires n < |es| < |ss| && !Kills(ss[n], es[n], u)
    ensures Orphaned(ss, es, n, u) || Overwrites(ss[n], es[n], u) ==> Orphaned(ss, es, n + 1, u)
  {
    if Overwrites(ss[n], es[n], u) {
      assert forall j :: n <= j < n + 1 ==> !Kills(ss[j], es[j], u);
    } else if Orphaned(ss, es, n, u) {
      var i :| 0 <= i < n && Overwrites(ss[i], es[i], u) && forall j :: i <= j < n ==> !Kills(ss[j], es[j], u);
      assert forall j :: i <= j < n + 1 ==> !Kills(ss[j], es[j], u);
    }
  }

  /** A timer that nobody ends keeps running. */
  lemma {:induction false} UnkilledRuns(ss: seq<State>, es: seq<Event>, i: nat, n: nat, u: nat)
    requires Run(ss, es) && i <= n < |ss| && Live(ss[i], u) && forall j :: i <= j < n ==> !Kills(ss[j], es[j], u)
    ensures Live(ss[n], u)
    decreases n
  {
    if i < n {
      UnkilledRuns(ss, es, i, n - 1, u);
      LiveMoves(ss[n - 1], es[n - 1], u);
    }
  }

  ghost predicate AllDone(s: State) {
    forall id :: id in s.threads ==> s.threads[id] == Done
  }

  /**
   * Exactly what `stop` leaves behind, in every run: when the flag is up and all goroutines are through, a timer is still
   * running if and only if another timer was stored over it while it ran and nobody has ended it since.
   */
  lemma LeftBehindIff(ss: seq<State>, es: seq<Event>, n: nat, u: nat)
    requires Run(ss, es) && n < |ss| && ss[n].stopped && AllDone(ss[n])
    ensures Live(ss[n], u) <==> Orphaned(ss, es, n, u)
  {
    if Live(ss[n], u) {
      RunningIsTracked(ss, es, n, u);
    }
    if Orphaned(ss, es, n, u) {
      var i :| 0 <= i < n && Overwrites(ss[i], es[i], u) && forall j :: i <= j < n ==> !Kills(ss[j], es[j], u);
      UnkilledRuns(ss, es, i, n, u);
    }
  }

  /** As long as the counter has not wrapped, a timer stored over a running one is dead: it expired before it was stored. */
  lemma OverwriterIsDead(ss: seq<State>, es: seq<Event>, i: nat, u: nat)
    requires Run(ss, es) && i < |es| && ss[i].wraps == 0 && Overwrites(ss[i], es[i], u)
    ensures !Live(ss[i], ss[i].threads[es[i].id].t)
  {
    EveryErrorCountedOnce(ss, es, i);
    var t := ss[i].threads[es[i].id].t;
    assert IsFlusher(ss[i], Timer(u));
    assert Live(ss[i], t) ==> IsFlusher(ss[i], Timer(t));
  }

  lemma WrapsGrow(ss: seq<State>, es: seq<Event>, i: nat, n: nat)
    requires Run(ss, es) && i <= n < |ss|
    ensures ss[i].wraps <= ss[n].wraps
    decreases n
  {
    if i < n {
      WrapsGrow(ss, es, i, n - 1);
      EveryErrorCountedOnce(ss, es, n - 1);
      StepKeepsInvariant(ss[n - 1], es[n - 1]);
    }
  }

  /** Without early firing a timer that is still to be stored is running. */
  lemma {:induction false} AwaitingRuns(ss: seq<State>, es: seq<Event>, n: nat, t: nat)
    requires Run(ss, es) && n < |ss| && (forall i :: 0 <= i < n ==> !FiresEarly(ss[i], es[i])) && AwaitsStore(ss[n], t)
    ensures Live(ss[n], t)
  {
    if n > 0 {
      OwnershipHolds(ss, es, n - 1);
      AwaitingStep(ss[n - 1], es[n - 1], t);
      if AwaitsStore(ss[n - 1], t) {
        AwaitingRuns(ss, es, n - 1, t);
      }
    }
  }

  lemma AwaitingStep(s: State, e: Event, t: nat)
    requires Ownership(s) && Enabled(s, e) && !FiresEarly(s, e) && AwaitsStore(Next(s, e), t)
    ensures !AwaitsStore(s, t) || Live(s, t) ==> Live(Next(s, e), t)
  {
    AwaitsStoreMoves(s, e, t);
    LiveMoves(s, e, t);
    if AwaitsStore(s, t) { NotEndedBeforeStored(s, e, t); }
  }

  /** Before a timer is stored only its own expiry can end it. */
  lemma NotEndedBeforeStored(s: State, e: Event, t: nat)
    requires Ownership(s) && AwaitsStore(s, t) && Enabled(s, e) && !FiresEarly(s, e)
    ensures !Kills(s, e, t)
  {
    var j :| j in s.threads && s.threads[j] == Publishing(t);
    assert TimerOf(s.threads[j]) == Some(t);
  }

  /** So if no timer expires before it has been stored, and the counter has not wrapped, `stop` leaves nothing behind. */
  lemma StopFlushesEverything(ss: seq<State>, es: seq<Event>, n: nat)
    requires Run(ss, es) && n < |ss| && ss[n].stopped && AllDone(ss[n]) && ss[n].wraps == 0
    requires forall i :: 0 <= i < n ==> !FiresEarly(ss[i], es[i])
    ensures Quiet(ss[n]) && ss[n].count == 0 && Sum(ss[n].swapped) == ss[n].added
  {
    forall u: nat ensures !Live(ss[n], u) {
      LeftBehindIff(ss, es, n, u);
      forall i | 0 <= i < n ensures !Overwrites(ss[i], es[i], u) {
        NeverOverwritten(ss, es, i, n, u);
      }
    }
    QuietMeansFlushedIff(ss, es, n);
  }

  lemma NeverOverwritten(ss: seq<State>, es: seq<Event>, i: nat, n: nat, u: nat)
    requires Run(ss, es) && i < n < |ss| && ss[n].wraps == 0 && forall j :: 0 <= j < n ==> !FiresEarly(ss[j], es[j])
    ensures !Overwrites(ss[i], es[i], u)
  {
    WrapsGrow(ss, es, i, n);
    if es[i].Advance? && ss[i].threads[es[i].id].Publishing? {
      var t := ss[i].threads[es[i].id].t;
      AwaitingRuns(ss, es, i, t);
      EveryErrorCountedOnce(ss, es, i);
      assert IsFlusher(ss[i], Timer(t));
      assert Live(ss[i], u) ==> IsFlusher(ss[i], Timer(u));
    }
  }

  // ----- a run in which stop leaves a timer behind -----

  ghost predicate Reaches(s: State) {
    exists ss, es :: Run(ss, es) && ss[|es|] == s
  }

  lemma InitReached()
    ensures Reaches(INIT)
  {
    assert Run([INIT], []);
  }

  lemma ReachNext(s: State, e: Event)
    requires Reaches(s) && Enabled(s, e)
    ensures Reaches(Next(s, e))
  {
    var ss, es :| Run(ss, es) && ss[|es|] == s;
    var ss', es' := ss + [Next(s, e)], es + [e];
    assert Run(ss', es') && ss'[|es'|] == Next(s, e);
  }

  lemma MoveTwice(s: State, id: nat, a: Pc, b: Pc)
    ensures Move(Move(s, id, a), id, b) == Move(s, id, b)
  {
    assert s.threads[id := a][id := b] == s.threads[id := b];
  }

  /** A report that finds the counter at zero starts a timer. */
  lemma ReportStartsTimer(s: State, id: nat)
    requires Reaches(s) && id !in s.threads && s.count == 0 && !s.stopped
    ensures Reaches(Move(s, id, Publishing(|s.timers|)).(count := 1, added := s.added + 1, timers := s.timers + [true]))
  {
    ReachNext(s, Report(id));
    ReachNext(Move(s, id, Checking), Advance(id));
    MoveTwice(s, id, Checking, Adding);
    ReachNext(Move(s, id, Adding), Advance(id));
    MoveTwice(s, id, Adding, Arming);
    ReachNext(Move(s, id, Arming).(count := 1, added := s.added + 1), Advance(id));
    MoveTwice(s, id, Arming, Publishing(|s.timers|));
  }

  /** Before `stop` a goroutine stores its timer and is through. */
  lemma StoresTimer(s: State, id: nat)
    requires Reaches(s) && id in s.threads && s.threads[id].Publishing? && !s.stopped
    ensures Reaches(Move(s, id, Done).(published := Some(s.threads[id].t)))
  {
    var t := s.threads[id].t;
    ReachNext(s, Advance(id));
    ReachNext(Move(s, id, Rechecking(t)).(published := Some(t)), Advance(id));
    MoveTwice(s, id, Rechecking(t), Done);
  }

  /** A call of `stop` that loads a dead timer does nothing but raise the flag. */
  lemma StopsDeadTimer(s: State, id: nat)
    requires Reaches(s) && id !in s.threads && s.published.Some? && !Live(s, s.published.value)
    ensures Reaches(Move(s, id, Done).(stopped := true))
  {
    StopHalts(s, id);
    var t := s.published.value;
    ReachNext(Move(s, id, Halting(t)).(stopped := true), Advance(id));
    MoveTwice(s, id, Halting(t), Done);
  }

  lemma StopHalts(s: State, id: nat)
    requires Reaches(s) && id !in s.threads && s.published.Some?
    ensures Reaches(Move(s, id, Halting(s.published.value)).(stopped := true))
  {
    StopLoads(s, id);
    ReachNext(Move(s, id, Loading).(stopped := true), Advance(id));
    MoveTwice(s, id, Loading, Halting(s.published.value));
  }

  lemma StopLoads(s: State, id: nat)
    requires Reaches(s) && id !in s.threads
    ensures Reaches(Move(s, id, Loading).(stopped := true))
  {
    ReachNext(s, Stop(id));
    ReachNext(Move(s, id, Raising), Advance(id));
    MoveTwice(s, id, Raising, Loading);
  }

  /** Goroutine 0 starts timer 0, which fires and is flushed by goroutine 1 before goroutine 0 has stored it. */
  lemma FireBeforeStore() returns (s: State)
    ensures Reaches(s) && s == State(0, false, None, [false], map[0 := Publishing(0), 1 := Done], 1, [1], 0)
  {
    InitReached();
    ReportStartsTimer(INIT, 0);
    var a := State(1, false, None, [true], map[0 := Publishing(0)], 1, [], 0);
    assert [] + [true] == [true];
    ReachNext(a, Fire(0, 1));
    assert [true][0 := false] == [false];
    var b := Move(a, 1, Flushing).(timers := [false]);
    ReachNext(b, Advance(1));
    MoveTwice(a, 1, Flushing, Done);
    assert [] + [1] == [1];
    s := Next(b, Advance(1));
  }

  /**
   * Early firing is what `stop` cannot cope with. After the run above a second report starts and stores timer 1, then
   * goroutine 0 stores its dead timer over it, and `stop` loads the dead one: all goroutines are through, yet timer 1
   * runs on and one error is not flushed.
   */
  lemma EarlyFireOutlivesStop() returns (s: State)
    ensures Reaches(s) && s.stopped && (forall id :: id in s.threads ==> s.threads[id] == Done) && Live(s, 1) && s.count == 1 && s.wraps == 0
  {
    s := FireBeforeStore();
    ReportStartsTimer(s, 2);
    assert [false] + [true] == [false, true];
    s := Move(s, 2, Publishing(1)).(count := 1, added := 2, timers := [false, true]);
    StoresTimer(s, 2);
    s := Move(s, 2, Done).(published := Some(1));
    StoresTimer(s, 0);
    s := Move(s, 0, Done).(published := Some(0));
    StopsDeadTimer(s, 3);
    s := Move(s, 3, Done).(stopped := true);
  }

  // ----- a run in which the counter wraps -----

  /** Every value of the counter below 2^32 is reached: report after report while the first timer runs. */
  lemma {:induction false} CountReached(n: nat) returns (s: State)
    requires 1 <= n < WRAP
    ensures Reaches(s) && s.count == n == s.added && s.swapped == [] && s.wraps == 0 && !s.stopped && Live(s, 0)
    ensures forall id :: id in s.threads ==> id < n
  {
    if n == 1 {
      InitReached();
      ReportStartsTimer(INIT, 0);
      s := Move(INIT, 0, Publishing(0)).(count := 1, added := 1, timers := [] + [true]);
    } else {
      var r := CountReached(n - 1);
      s := OneMoreReport(r, n - 1);
    }
  }

  lemma OneMoreReport(r: State, id: nat) returns (s: State)
    requires Reaches(r) && 1 <= r.count < WRAP && id !in r.threads && !r.stopped
    ensures Reaches(s) && s == Move(r, id, Done).(
      count := (r.count + 1) % WRAP, added := r.added + 1, wraps := r.wraps + (if r.count + 1 == WRAP then 1 else 0))
  {
    ReachNext(r, Report(id));
    ReachNext(Move(r, id, Checking), Advance(id));
    MoveTwice(r, id, Checking, Adding);
    ReachNext(Move(r, id, Adding), Advance(id));
    MoveTwice(r, id, Adding, Done);
    s := Next(Move(r, id, Adding), Advance(id));
  }

  /** So the counter can wrap: 2^32 errors have been added, none is in the books, and a timer runs behind a zero counter. */
  lemma WrapIsReached() returns (s: State)
    ensures Reaches(s) && s.wraps == 1 && s.count == 0 && s.swapped == [] && s.added == WRAP && Live(s, 0) && !OneFlusher(s)
  {
    var r := CountReached(WRAP - 1);
    s := OneMoreReport(r, WRAP - 1);
    assert IsFlusher(s, Timer(0));
  }
}
