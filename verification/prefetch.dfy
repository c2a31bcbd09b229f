/**
 * Background refreshes of cache items (`tryPrefetch`): requests race on an item's `refreshing` flag, and whoever wins
 * starts a goroutine that clears the flag when it is done. Items and goroutines are numbered.
 */
module Prefetch {
  /** `Trying` is before the compare-and-swap, `Starting` between it and the start of the goroutine. */
  datatype Pc = Trying(item: nat) | Starting(item: nat) | Fetching(item: nat) | Clearing(item: nat)

  /** `refreshing` holds the items whose flag is set. */
  datatype State = State(refreshing: set<nat>, threads: map<nat, Pc>)

  datatype Event = Hit(t: nat, item: nat) | Step(t: nat)

  const INIT := State({}, map[])

  predicate Enabled(s: State, e: Event) {
    match e
    case Hit(t, _) => t !in s.threads
    case Step(t) => t in s.threads
  }

  function Next(s: State, e: Event): State
    requires Enabled(s, e)
  {
    match e
    case Hit(t, item) => s.(threads := s.threads[t := Trying(item)])
    case Step(t) =>
      match s.threads[t]
      case Trying(i) =>
        if i in s.refreshing then s.(threads := s.threads - {t})
        else State(s.refreshing + {i}, s.threads[t := Starting(i)])
      case Starting(i) => s.(threads := s.threads[t := Fetching(i)])
      case Fetching(i) => s.(threads := s.threads[t := Clearing(i)])
      case Clearing(i) => State(s.refreshing - {i}, s.threads - {t})
  }

  ghost predicate Run(ss: seq<State>, es: seq<Event>) {
    && |ss| == |es| + 1 && ss[0] == INIT
    && forall i :: 0 <= i < |es| ==> Enabled(ss[i], es[i]) && ss[i + 1] == Next(ss[i], es[i])
  }

  /** Thread `t` has a prefetch of the item under way. */
  predicate InFlight(s: State, item: nat, t: nat) {
    t in s.threads && !s.threads[t].Trying? && s.threads[t].item == item
  }

  ghost predicate OneIfSet(s: State, item: nat) {
    && (item in s.refreshing <==> exists t :: InFlight(s, item, t))
    && forall t, u :: InFlight(s, item, t) && InFlight(s, item, u) ==> t == u
  }

  lemma StepKeepsOne(s: State, e: Event, item: nat)
    requires OneIfSet(s, item) && Enabled(s, e)
    ensures OneIfSet(Next(s, e), item)
  {
    var s' := Next(s, e);
    if item in s.refreshing {
      var t :| InFlight(s, item, t);
      if e.Step? && s.threads[e.t] == Clearing(item) {
        assert InFlight(s, item, e.t);
      } else {
        assert InFlight(s', item, t);
      }
      forall u | InFlight(s', item, u) ensures u == t {
        assert InFlight(s, item, u);
      }
    } else if item in s'.refreshing {
      assert InFlight(s', item, e.t);
      assert forall u :: u != e.t ==> (InFlight(s', item, u) <==> InFlight(s, item, u));
    } else {
      assert forall u :: InFlight(s', item, u) ==> InFlight(s, item, u);
    }
  }

  /** In every run, at every moment, each item has exactly one prefetch in flight if its flag is set and none if not. */
  lemma {:induction false} OnePrefetchPerItem(ss: seq<State>, es: seq<Event>, n: nat, item: nat)
    requires Run(ss, es) && n < |ss|
    ensures OneIfSet(ss[n], item)
  {
    if n > 0 {
      OnePrefetchPerItem(ss, es, n - 1, item);
      StepKeepsOne(ss[n - 1], es[n - 1], item);
    }
  }
}
