/** The secondary side of a zone: when to transfer (`less`, `shouldTransfer`) and the timed loop `Update`. */
module Secondary {
  import opened Records
  import opened Options

  // ----- serial numbers -----

  const MODULUS := 0x1_0000_0000
  const HALF := 0x8000_0000
  const MAX_SERIAL_INCREMENT := 2147483647

  type Serial = x: int | 0 <= x < MODULUS

  predicate Less(a: Serial, b: Serial) {
    if a < b then b - a <= MAX_SERIAL_INCREMENT else a - b > MAX_SERIAL_INCREMENT
  }

  /** Section 3.1 of RFC 1982. */
  function Plus(a: Serial, n: nat): Serial {
    (a + n) % MODULUS
  }

  /** Section 3.2 of RFC 1982; it leaves serials that are half the circle apart unordered. */
  predicate RfcLess(a: Serial, b: Serial) {
    (a < b && b - a < HALF) || (a > b && a - b > HALF)
  }

  /** A total, asymmetric order on each pair that extends the RFC's and contains every permitted addition. */
  lemma LessIsRfcLess(a: Serial, b: Serial)
    ensures a != b ==> (Less(a, b) <==> !Less(b, a))
    ensures !Less(a, a)
    ensures Less(a, b) <==> RfcLess(a, b) || (a - b == HALF)
    ensures forall n: nat :: 0 < n < HALF ==> Less(a, Plus(a, n))
  {
    forall n: nat | 0 < n < HALF ensures Less(a, Plus(a, n)) {
      if a + n >= MODULUS {
        assert (a + n) % MODULUS == a + n - MODULUS;
      } else {
        assert (a + n) % MODULUS == a + n;
      }
    }
  }

  // ----- asking the primaries -----

  /** What came back from one primary. */
  datatype Exchange = Failed(error: int) | Answered(rcode: nat, answer: seq<RR>)

  function SerialOf(rr: RR): Serial {
    match rr.data case Soa(s) => s % MODULUS case _ => 0
  }

  /** The first SOA of an answer section is at `i`. */
  ghost predicate FirstSoa(rrs: seq<RR>, i: int) {
    0 <= i < |rrs| && rrs[i].rtype == TYPE_SOA && forall j :: 0 <= j < i ==> rrs[j].rtype != TYPE_SOA
  }

  predicate HasSoa(x: Exchange) {
    x.Answered? && x.rcode == 0 && exists i :: 0 <= i < |x.answer| && x.answer[i].rtype == TYPE_SOA
  }

  /** Primary `p` is the first that gives a SOA. */
  ghost predicate FirstPrimary(xs: seq<Exchange>, p: int) {
    0 <= p < |xs| && HasSoa(xs[p]) && forall q :: 0 <= q < p ==> !HasSoa(xs[q])
  }

  method FindSerial(rrs: seq<RR>) returns (serial: Option<Serial>)
    ensures serial.None? <==> forall i :: 0 <= i < |rrs| ==> rrs[i].rtype != TYPE_SOA
    ensures serial.Some? ==> exists i :: FirstSoa(rrs, i) && serial.value == SerialOf(rrs[i])
  {
    for i := 0 to |rrs|
      invariant forall j :: 0 <= j < i ==> rrs[j].rtype != TYPE_SOA
    {
      if rrs[i].rtype == TYPE_SOA {
        assert FirstSoa(rrs, i);
        return Some(SerialOf(rrs[i]));
      }
    }
    return None;
  }

  /**
   * `shouldTransfer`: the first primary that gives a SOA decides. Without one, an error is reported exactly when the
   * exchange with the last primary failed: a last primary that answers, but refuses, makes the check succeed.
   */
  method ShouldTransfer(xs: seq<Exchange>, current: Option<Serial>) returns (ok: bool, err: Option<int>)
    ensures forall p, i :: FirstPrimary(xs, p) && FirstSoa(xs[p].answer, i) ==>
      err == None && (ok <==> current.None? || Less(current.value, SerialOf(xs[p].answer[i])))
    ensures (forall p :: 0 <= p < |xs| ==> !HasSoa(xs[p])) ==>
      !ok && err == if xs != [] && xs[|xs| - 1].Failed? then Some(xs[|xs| - 1].error) else None
  {
    err := None;
    for p := 0 to |xs|
      invariant forall q :: 0 <= q < p ==> !HasSoa(xs[q])
      invariant err == if p > 0 && xs[p - 1].Failed? then Some(xs[p - 1].error) else None
    {
      err := None;
      match xs[p]
      case Failed(e) => err := Some(e);
      case Answered(rcode, answer) =>
        if rcode != 0 {
          continue;
        }
        var serial := FindSerial(answer);
        if serial.Some? {
          assert FirstPrimary(xs, p);
          ok := current.None? || Less(current.value, serial.value);
          return;
        }
    }
    ok := false;
  }

  // ----- the timed loop -----

  datatype Timers = Timers(refresh: nat, retry: nat, expire: nat)

  /** A ticker with its one-place channel: `next` is when it ticks again. */
  datatype Ticker = Ticker(period: nat, next: nat, ready: bool)

  datatype Which = Refresh | Retry | Expire

  /** The loop waits, asks the primaries, or transfers. */
  datatype Pc = Selecting | Checking(which: Which) | Transferring(which: Which)

  /**
   * `soa` are the timers of the zone's current SOA. The last three fields record the past: the last success of the loop
   * (or its start), the timers then in force, and whether the latest check or transfer failed.
   */
  datatype State = State(
    now: nat, soa: Timers, expired: bool, pc: Pc, retryActive: bool, tickers: map<Which, Ticker>,
    success: nat, base: Timers, failed: bool)

  datatype Outcome = Error | Same | Newer

  datatype Event =
    | Elapse(d: nat)
    | Tick(w: Which)
    | Take(w: Which)
    | CheckDone(outcome: Outcome)
    | TransferFailed
    | TransferDone(soa: Timers)
    | SetData(soa: Timers)     // a transfer outside the loop, after a NOTIFY

  function Restart(s: State): State {
    s.(pc := Selecting, retryActive := false, failed := false, success := s.now, base := s.soa,
    tickers := map[
      Refresh := Ticker(s.soa.refresh, s.now + s.soa.refresh, false),
      Retry := Ticker(s.soa.retry, s.now + s.soa.retry, false),
      Expire := Ticker(s.soa.expire, s.now + s.soa.expire, false)])
  }

  predicate Positive(t: Timers) {
    t.refresh > 0 && t.retry > 0 && t.expire > 0
  }

  function Start(now: nat, soa: Timers): State {
    Restart(State(now, soa, false, Selecting, false, map[], now, soa, false))
  }

  predicate Enabled(s: State, e: Event) {
    match e
    case Elapse(_) => true
    case Tick(w) => w in s.tickers && s.now >= s.tickers[w].next
    case Take(w) => s.pc.Selecting? && w in s.tickers && s.tickers[w].ready
    case CheckDone(_) => s.pc.Checking?
    case TransferFailed => s.pc.Transferring?
    case TransferDone(soa) => s.pc.Transferring? && Positive(soa)
    case SetData(soa) => Positive(soa)
  }

  function Failing(s: State, w: Which): State {
    s.(pc := Selecting, retryActive := w.Refresh? || s.retryActive, failed := true)
  }

  function Next(s: State, e: Event): State
    requires Enabled(s, e)
  {
    match e
    case Elapse(d) => s.(now := s.now + d)
    case Tick(w) => var t := s.tickers[w]; s.(tickers := s.tickers[w := Ticker(t.period, t.next + t.period, true)])
    case Take(w) =>
      var s' := s.(tickers := s.tickers[w := s.tickers[w].(ready := false)]);
      (match w
       case Expire => if s.retryActive then s'.(expired := true) else s'
       case Retry => if s.retryActive then s'.(pc := Checking(w)) else s'
       case Refresh => s'.(pc := Checking(w)))
    case CheckDone(Error) => Failing(s, s.pc.which)
    case CheckDone(Same) => Restart(s)
    case CheckDone(Newer) => s.(pc := Transferring(s.pc.which))
    case TransferFailed => Failing(s, s.pc.which)
    case TransferDone(soa) => Restart(s.(soa := soa, expired := false))
    case SetData(soa) => s.(soa := soa, expired := false)
  }

  ghost predicate Run(ss: seq<State>, es: seq<Event>) {
    && |ss| == |es| + 1 && (exists now, soa :: Positive(soa) && ss[0] == Start(now, soa))
    && forall i :: 0 <= i < |es| ==> Enabled(ss[i], es[i]) && ss[i + 1] == Next(ss[i], es[i])
  }

  /** The expire ticker has not ticked, and will not, before a full interval after the last success. */
  ghost predicate Invariant(s: State) {
    && s.retryActive == s.failed
    && ((s.pc.Checking? || s.pc.Transferring?) ==> (s.pc.which.Retry? ==> s.retryActive) && !s.pc.which.Expire?)
    && s.success <= s.now && Expire in s.tickers
    && s.tickers[Expire].next >= s.success + s.base.expire
    && (s.tickers[Expire].ready ==> s.now >= s.success + s.base.expire)
  }

  lemma StepKeepsInvariant(s: State, e: Event)
    requires Invariant(s) && Enabled(s, e)
    ensures Invariant(Next(s, e))
  {
  }

  lemma {:induction false} RunKeepsInvariant(ss: seq<State>, es: seq<Event>, n: nat)
    requires Run(ss, es) && n < |ss|
    ensures Invariant(ss[n])
  {
    if n > 0 {
      RunKeepsInvariant(ss, es, n - 1);
      StepKeepsInvariant(ss[n - 1], es[n - 1]);
    }
  }

  /**
   * In every timed run: the zone becomes expired only when the latest check or transfer of the loop failed and at least
   * the expire interval has passed since its last success; it becomes live again only when new data are set.
   */
  lemma ExpiryIsJustified(ss: seq<State>, es: seq<Event>, n: nat)
    requires Run(ss, es) && n < |es|
    ensures !ss[n].expired && ss[n + 1].expired ==> ss[n].failed && ss[n].now >= ss[n].success + ss[n].base.expire
    ensures ss[n].expired && !ss[n + 1].expired ==> es[n].TransferDone? || es[n].SetData?
    ensures es[n].TransferDone? || es[n].SetData? ==> !ss[n + 1].expired
  {
    RunKeepsInvariant(ss, es, n);
    assert ss[n + 1] == Next(ss[n], es[n]);
  }

  function PeriodOf(t: Timers, w: Which): nat {
    match w case Refresh => t.refresh case Retry => t.retry case Expire => t.expire
  }

  /** `k` times `p`. */
  function Times(k: nat, p: nat): (r: nat)
    ensures k >= 1 ==> r >= p
  {
    if k == 0 then 0 else Times(k - 1, p) + p
  }

  /** A moment at a whole multiple, not zero, of the timer after the last success. */
  ghost predicate IsDue(s: State, w: Which, at: nat) {
    exists k: nat :: k >= 1 && at == s.success + Times(k, PeriodOf(s.base, w))
  }

  /** The ticker ticks at such moments only, and has not ticked before the first of them. */
  ghost predicate OnSchedule(s: State, w: Which) {
    && w in s.tickers && s.tickers[w].period == PeriodOf(s.base, w) && IsDue(s, w, s.tickers[w].next)
    && (s.tickers[w].ready ==> s.now >= s.success + PeriodOf(s.base, w))
  }

  lemma FirstIsDue(s: State, w: Which)
    ensures IsDue(s, w, s.success + PeriodOf(s.base, w))
  {
    assert Times(1, PeriodOf(s.base, w)) == Times(0, PeriodOf(s.base, w)) + PeriodOf(s.base, w);
  }

  lemma NextIsDue(s: State, w: Which, at: nat)
    requires IsDue(s, w, at)
    ensures IsDue(s, w, at + PeriodOf(s.base, w)) && at >= s.success + PeriodOf(s.base, w)
  {
    var k: nat :| k >= 1 && at == s.success + Times(k, PeriodOf(s.base, w));
    assert Times(k + 1, PeriodOf(s.base, w)) == Times(k, PeriodOf(s.base, w)) + PeriodOf(s.base, w);
  }

  predicate Restarts(e: Event) {
    e == CheckDone(Same) || e.TransferDone?
  }

  lemma RestartOnSchedule(s: State, w: Which)
    ensures OnSchedule(Restart(s), w)
  {
    FirstIsDue(Restart(s), w);
  }

  lemma TickerMoves(s: State, e: Event, w: Which)
    requires Enabled(s, e) && !Restarts(e) && w in s.tickers
    ensures var s' := Next(s, e);
      && s'.base == s.base && s'.success == s.success && s'.now >= s.now && w in s'.tickers
      && var t, t' := s.tickers[w], s'.tickers[w];
      && t'.period == t.period && t'.next == (if e == Tick(w) then t.next + t.period else t.next)
      && (t'.ready ==> t.ready || s.now >= t.next)
  {
  }

  lemma StepKeepsSchedule(s: State, e: Event, w: Which)
    requires OnSchedule(s, w) && Enabled(s, e)
    ensures OnSchedule(Next(s, e), w)
  {
    if Restarts(e) {
      RestartOnSchedule(if e.TransferDone? then s.(soa := e.soa, expired := false) else s, w);
    } else {
      TickerMoves(s, e, w);
      TickerOnSchedule(s, Next(s, e), w);
    }
  }

  lemma TickerOnSchedule(s: State, s': State, w: Which)
    requires OnSchedule(s, w) && s'.base == s.base && s'.success == s.success && s'.now >= s.now && w in s'.tickers
    requires var t, t' := s.tickers[w], s'.tickers[w];
      t'.period == t.period && (t'.next == t.next || t'.next == t.next + t.period) && (t'.ready ==> t.ready || s.now >= t.next)
    ensures OnSchedule(s', w)
  {
    NextIsDue(s, w, s.tickers[w].next);
    DueAlike(s, s', w, s'.tickers[w].next);
  }

  lemma DueAlike(s: State, s': State, w: Which, at: nat)
    requires s'.base == s.base && s'.success == s.success
    ensures IsDue(s, w, at) <==> IsDue(s', w, at)
  {
  }

  /** In every timed run the three tickers follow the timers of the SOA that was in force at the last success. */
  lemma {:induction false} RunKeepsSchedule(ss: seq<State>, es: seq<Event>, n: nat, w: Which)
    requires Run(ss, es) && n < |ss|
    ensures OnSchedule(ss[n], w)
  {
    if n > 0 {
      RunKeepsSchedule(ss, es, n - 1, w);
      StepKeepsSchedule(ss[n - 1], es[n - 1], w);
    } else {
      FirstIsDue(ss[0], w);
    }
  }

  /**
   * When the primaries are asked: a check begins exactly when the loop takes a refresh tick or, after a failure, a retry
   * tick; and such a tick is taken no earlier than that timer after the last success.
   */
  lemma ChecksOnSchedule(ss: seq<State>, es: seq<Event>, n: nat)
    requires Run(ss, es) && n < |es|
    ensures ss[n].pc.Selecting? && ss[n + 1].pc.Checking? <==> es[n] == Take(Refresh) || (es[n] == Take(Retry) && ss[n].failed)
    ensures es[n] == Take(Refresh) ==> ss[n].now >= ss[n].success + ss[n].base.refresh
    ensures es[n] == Take(Retry) ==> ss[n].now >= ss[n].success + ss[n].base.retry
  {
    RunKeepsInvariant(ss, es, n);
    RunKeepsSchedule(ss, es, n, Refresh);
    RunKeepsSchedule(ss, es, n, Retry);
    assert ss[n + 1] == Next(ss[n], es[n]);
  }

  /** An expire tick is taken while the latest check or transfer has failed. */
  predicate ExpiresAt(s: State, e: Event) {
    e == Take(Expire) && s.retryActive
  }

  /** New data are set: by a transfer of the loop or by one outside it. A check that finds nothing newer is not among these. */
  predicate Revives(e: Event) {
    e.TransferDone? || e.SetData?
  }

  /** The zone went down at step `i`, and no new data have been set since. */
  ghost predicate DownSince(ss: seq<State>, es: seq<Event>, i: int, n: nat)
    requires n <= |es| < |ss|
  {
    0 <= i < n && ExpiresAt(ss[i], es[i]) && forall j :: i < j < n ==> !Revives(es[j])
  }

  lemma ExpiredMoves(s: State, e: Event)
    requires Enabled(s, e)
    ensures Next(s, e).expired <==> ExpiresAt(s, e) || (s.expired && !Revives(e))
  {
  }

  ghost predicate Down(ss: seq<State>, es: seq<Event>, n: nat)
    requires n <= |es| < |ss|
  {
    exists i :: DownSince(ss, es, i, n)
  }

  lemma StillDown(ss: seq<State>, es: seq<Event>, m: nat, n: nat)
    requires n == m + 1 && n <= |es| < |ss| && !ExpiresAt(ss[m], es[m]) && !Revives(es[m])
    ensures Down(ss, es, m) <==> Down(ss, es, n)
  {
    if i :| DownSince(ss, es, i, m) { assert DownSince(ss, es, i, n); }
    if i :| DownSince(ss, es, i, n) { assert DownSince(ss, es, i, m); }
  }

  /**
   * In every timed run the zone is expired if and only if it went down at some moment, justified as above, and no new data
   * have been set since, whatever the primaries have confirmed in the meantime.
   */
  lemma {:induction false} ExpiredIff(ss: seq<State>, es: seq<Event>, n: nat)
    requires Run(ss, es) && n <= |es|
    ensures ss[n].expired <==> Down(ss, es, n)
    ensures forall i :: DownSince(ss, es, i, n) ==> ss[i].failed && ss[i].now >= ss[i].success + ss[i].base.expire
  {
    forall i | DownSince(ss, es, i, n) ensures ss[i].failed && ss[i].now >= ss[i].success + ss[i].base.expire {
      RunKeepsInvariant(ss, es, i);
    }
    if n > 0 {
      ExpiredIff(ss, es, n - 1);
      ExpiredMoves(ss[n - 1], es[n - 1]);
      if ExpiresAt(ss[n - 1], es[n - 1]) {
        assert DownSince(ss, es, n - 1, n);
      } else if !Revives(es[n - 1]) {
        StillDown(ss, es, n - 1, n);
      } else {
        assert forall i :: !DownSince(ss, es, i, n);
      }
    }
  }

  ghost predicate Reaches(s: State) {
    exists ss, es :: Run(ss, es) && ss[|es|] == s
  }

  lemma StartReached(now: nat, soa: Timers)
    requires Positive(soa)
    ensures Reaches(Start(now, soa))
  {
    assert Run([Start(now, soa)], []);
  }

  lemma ReachNext(s: State, e: Event)
    requires Reaches(s) && Enabled(s, e)
    ensures Reaches(Next(s, e))
  {
    var ss, es :| Run(ss, es) && ss[|es|] == s;
    assert Run(ss + [Next(s, e)], es + [e]);
  }

  /** The three tickers are due. */
  ghost predicate AllDue(s: State) {
    && Refresh in s.tickers && Retry in s.tickers && Expire in s.tickers
    && s.now >= s.tickers[Retry].next && s.now >= s.tickers[Expire].next
  }

  lemma RefreshReached() returns (s: State)
    ensures Reaches(s) && s.pc.Selecting? && AllDue(s) && s.tickers[Refresh].ready
  {
    s := Start(0, Timers(3600, 3600, 3600));
    StartReached(0, Timers(3600, 3600, 3600));
    ReachNext(s, Elapse(3600));
    s := Next(s, Elapse(3600));
    ReachNext(s, Tick(Refresh));
    s := Next(s, Tick(Refresh));
  }

  lemma FailedReached() returns (s: State)
    ensures Reaches(s) && s.retryActive && s.failed && s.pc.Selecting? && AllDue(s)
  {
    s := RefreshReached();
    ReachNext(s, Take(Refresh));
    s := Next(s, Take(Refresh));
    ReachNext(s, CheckDone(Error));
    s := Next(s, CheckDone(Error));
  }

  /** An hour without an answer, a failed check: the next expire tick takes the zone down. */
  lemma ExpiredReached() returns (s: State)
    ensures Reaches(s) && s.expired && s.failed && s.pc.Selecting? && Retry in s.tickers && s.now >= s.tickers[Retry].next
  {
    s := FailedReached();
    ReachNext(s, Tick(Expire));
    s := Next(s, Tick(Expire));
    ReachNext(s, Take(Expire));
    s := Next(s, Take(Expire));
  }

  /** So a zone can be expired although its primaries answer again and confirm its data. */
  lemma ConfirmedZoneStaysExpired() returns (s: State)
    ensures Reaches(s) && s.expired && !s.failed && s.success == s.now
  {
    s := ExpiredReached();
    var ss, es :| Run(ss, es) && ss[|es|] == s;
    RunKeepsInvariant(ss, es, |es|);
    ReachNext(s, Tick(Retry));
    s := Next(s, Tick(Retry));
    ReachNext(s, Take(Retry));
    s := Next(s, Take(Retry));
    ReachNext(s, CheckDone(Same));
    s := Next(s, CheckDone(Same));
  }
}
