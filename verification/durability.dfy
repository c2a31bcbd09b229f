/**
 * Mutating calls that run concurrently, each followed by a save of the whole store (`snapshotter.save`), and crashes
 * at any moment. The steps are those of the program: a change under the store lock, then, under the snapshot mutex,
 * export, write of the temporary file and rename.
 */
module Durability {
  import opened TenantStore
  import opened Snapshot
  import opened Options

  /** What the surviving memory went through: a call, or a restart from the state file. */
  datatype Change = Did(op: Op) | Restarted

  /** The store after a log of changes. */
  function Replay(log: seq<Change>): Zones {
    if log == [] then map[]
    else
      var before := Replay(log[..|log| - 1]);
      match log[|log| - 1]
      case Did(op) => Apply(before, op).zones
      case Restarted => Normalised(before)
  }

  /** Where a call is. `v` is the length of the log right after its own change, `e` the length when it exported. */
  datatype Pc =
    | Called(op: Op)
    | Waiting(op: Op, v: nat)
    | Saving(op: Op, v: nat)
    | Exported(op: Op, v: nat, e: nat, snap: seq<SnapZone>)
    | Writing(op: Op, v: nat, e: nat, snap: seq<SnapZone>)
    | Written(op: Op, v: nat, e: nat)
    | Saved(op: Op, v: nat)

  /**
   * `mem` is the store, `tmp` and `file` are the two files; a partly written temporary file is `None`. The last three
   * fields record the past: the changes that led to `mem`, the length of the log that the state file holds, and the
   * changes whose calls have returned success, by their position in the log.
   */
  datatype State = State(
    mem: Zones, threads: map<nat, Pc>, mutex: Option<nat>, tmp: Option<seq<SnapZone>>, file: Option<seq<SnapZone>>,
    log: seq<Change>, version: nat, acked: map<nat, Op>)

  const INIT := State(map[], map[], None, None, None, [], 0, map[])

  datatype Event =
    | Call(t: nat, op: Op)
    | Commit(t: nat)
    | Acquire(t: nat)
    | TakeExport(t: nat, snap: seq<SnapZone>)
    | Truncate(t: nat)
    | Write(t: nat)
    | Rename(t: nat)
    | Return(t: nat)
    | Crash

  ghost predicate Enabled(s: State, e: Event) {
    match e
    case Call(t, _) => t !in s.threads
    case Commit(t) => t in s.threads && s.threads[t].Called?
    case Acquire(t) => t in s.threads && s.threads[t].Waiting? && s.mutex == None
    case TakeExport(t, snap) => t in s.threads && s.threads[t].Saving? && IsExport(s.mem, snap)
    case Truncate(t) => t in s.threads && s.threads[t].Exported?
    case Write(t) => t in s.threads && s.threads[t].Writing?
    case Rename(t) => t in s.threads && s.threads[t].Written?
    case Return(t) => t in s.threads && s.threads[t].Saved?
    case Crash => true
  }

  function Goto(s: State, t: nat, pc: Pc): State {
    s.(threads := s.threads[t := pc])
  }

  function End(s: State, t: nat): State {
    s.(threads := s.threads - {t})
  }

  function Committed(s: State, t: nat, op: Op): State {
    var eff := Apply(s.mem, op);
    var v := |s.log| + 1;
    var done := s.(mem := eff.zones, log := s.log + [Did(op)]);
    if eff.notified then Goto(done, t, Waiting(op, v))
    else if eff.ok && eff.zones != s.mem then End(done, t).(acked := s.acked[v := op])
    else End(done, t)
  }

  /** What a start reads from the state file: a missing one is a clean first boot. */
  function Recovered(file: Option<seq<SnapZone>>): Zones {
    if file.Some? then Imported(file.value) else map[]
  }

  function Prefix(log: seq<Change>, n: nat): seq<Change> {
    if n <= |log| then log[..n] else log
  }

  ghost function Next(s: State, e: Event): State
    requires Enabled(s, e)
  {
    match e
    case Call(t, op) => Goto(s, t, Called(op))
    case Commit(t) => Committed(s, t, s.threads[t].op)
    case Acquire(t) => var pc := s.threads[t]; Goto(s, t, Saving(pc.op, pc.v)).(mutex := Some(t))
    case TakeExport(t, snap) => var pc := s.threads[t]; Goto(s, t, Exported(pc.op, pc.v, |s.log|, snap))
    case Truncate(t) => var pc := s.threads[t]; Goto(s, t, Writing(pc.op, pc.v, pc.e, pc.snap)).(tmp := None)
    case Write(t) => var pc := s.threads[t]; Goto(s, t, Written(pc.op, pc.v, pc.e)).(tmp := Some(pc.snap))
    case Rename(t) => var pc := s.threads[t]; Goto(s, t, Saved(pc.op, pc.v)).(file := s.tmp, tmp := None, version := pc.e)
    case Return(t) => var pc := s.threads[t]; End(s, t).(mutex := None, acked := s.acked[pc.v := pc.op])
    case Crash =>
      s.(mem := Recovered(s.file), threads := map[], mutex := None, log := Prefix(s.log, s.version) + [Restarted])
  }

  ghost predicate Run(ss: seq<State>, es: seq<Event>) {
    && |ss| == |es| + 1 && ss[0] == INIT
    && forall i :: 0 <= i < |es| ==> Enabled(ss[i], es[i]) && ss[i + 1] == Next(ss[i], es[i])
  }

  // ----- the invariant -----

  /** Position `v` of the log is this call. */
  predicate Logged(log: seq<Change>, op: Op, v: nat) {
    0 < v <= |log| && log[v - 1] == Did(op)
  }

  /** `snap` is the export of the store after the first `n` changes. */
  ghost predicate Holds(log: seq<Change>, n: nat, snap: seq<SnapZone>) {
    n <= |log| && IsExport(Replay(log[..n]), snap)
  }

  ghost predicate ThreadOk(s: State, t: nat, pc: Pc) {
    match pc
    case Called(_) => true
    case Waiting(op, v) => Logged(s.log, op, v)
    case Saving(op, v) => Logged(s.log, op, v) && s.mutex == Some(t)
    case Exported(op, v, e, snap) => Logged(s.log, op, v) && s.mutex == Some(t) && v <= e && s.version <= e && Holds(s.log, e, snap)
    case Writing(op, v, e, snap) => Logged(s.log, op, v) && s.mutex == Some(t) && v <= e && s.version <= e && Holds(s.log, e, snap)
    case Written(op, v, e) =>
      Logged(s.log, op, v) && s.mutex == Some(t) && v <= e && s.version <= e && s.tmp.Some? && Holds(s.log, e, s.tmp.value)
    case Saved(op, v) => Logged(s.log, op, v) && s.mutex == Some(t) && v <= s.version
  }

  ghost predicate ThreadsOk(s: State) {
    forall t :: t in s.threads ==> ThreadOk(s, t, s.threads[t])
  }

  /** The state file is the export of the store after the first `version` changes. */
  ghost predicate FileOk(s: State) {
    && s.version <= |s.log|
    && (if s.file.Some? then Holds(s.log, s.version, s.file.value) else s.version == 0)
  }

  /** Every change whose call has returned success is among those. */
  ghost predicate AckedOk(s: State) {
    forall v :: v in s.acked ==> v <= s.version && Logged(s.log, s.acked[v], v)
  }

  ghost predicate Invariant(s: State) {
    s.mem == Replay(s.log) && FileOk(s) && AckedOk(s) && ThreadsOk(s)
  }

  lemma {:induction false} ReplayKeyed(log: seq<Change>)
    ensures Keyed(Replay(log))
  {
    if log != [] {
      var before := Replay(log[..|log| - 1]);
      ReplayKeyed(log[..|log| - 1]);
      match log[|log| - 1]
      case Did(op) => ApplyKeepsKeyed(before, op);
      case Restarted => NormalisedKeyed(before);
    }
  }

  /** Loading the state file gives the store as it was at the file's version. */
  lemma RecoveredIsReplay(s: State)
    requires FileOk(s)
    ensures Recovered(s.file) == Normalised(Replay(s.log[..s.version]))
  {
    if s.file.Some? {
      ReplayKeyed(s.log[..s.version]);
      ImportUndoesExport(Replay(s.log[..s.version]), s.file.value);
    }
  }

  lemma ReplayAppend(log: seq<Change>, c: Change)
    ensures Replay(log + [c]) == match c case Did(op) => Apply(Replay(log), op).zones case Restarted => Normalised(Replay(log))
  {
    assert (log + [c])[..|log|] == log;
  }

  lemma HoldsLonger(log: seq<Change>, more: seq<Change>, n: nat, snap: seq<SnapZone>)
    requires Holds(log, n, snap)
    ensures Holds(log + more, n, snap)
  {
    assert (log + more)[..n] == log[..n];
  }

  lemma ThreadLogGrows(s: State, s': State, t: nat, pc: Pc)
    requires ThreadOk(s, t, pc) && s'.mutex == s.mutex && s'.tmp == s.tmp && s'.version == s.version
    requires exists c :: s'.log == s.log + [c]
    ensures ThreadOk(s', t, pc)
  {
    var c :| s'.log == s.log + [c];
    match pc
    case Exported(_, _, e, snap) => HoldsLonger(s.log, [c], e, snap);
    case Writing(_, _, e, snap) => HoldsLonger(s.log, [c], e, snap);
    case Written(_, _, e) => HoldsLonger(s.log, [c], e, s.tmp.value);
    case _ =>
  }

  lemma FileLogGrows(s: State, s': State, c: Change)
    requires FileOk(s) && s'.log == s.log + [c] && s'.file == s.file && s'.version == s.version
    ensures FileOk(s')
  {
    if s.file.Some? { HoldsLonger(s.log, [c], s.version, s.file.value); }
  }

  lemma CommitKeeps(s: State, t: nat)
    requires Invariant(s) && Enabled(s, Commit(t))
    ensures Invariant(Next(s, Commit(t)))
  {
    var s', op := Next(s, Commit(t)), s.threads[t].op;
    ReplayAppend(s.log, Did(op));
    FileLogGrows(s, s', Did(op));
    FailureIsCleanIff(s.mem, op);
    assert AckedOk(s');
    forall u | u in s'.threads ensures ThreadOk(s', u, s'.threads[u]) {
      if u != t { ThreadLogGrows(s, s', u, s.threads[u]); }
    }
  }

  lemma CrashKeeps(s: State)
    requires Invariant(s)
    ensures Invariant(Next(s, Crash))
  {
    var s', log := Next(s, Crash), s.log[..s.version];
    RecoveredIsReplay(s);
    ReplayAppend(log, Restarted);
    assert s'.log[..s.version] == log;
    assert AckedOk(s');
  }

  /** A step that saves: it takes place under the mutex and changes neither the store nor the log. */
  ghost predicate Saves(s: State, e: Event) {
    Enabled(s, e) && !e.Commit? && !e.Crash?
  }

  lemma SaveKeepsFile(s: State, e: Event)
    requires Invariant(s) && Saves(s, e)
    ensures FileOk(Next(s, e)) && AckedOk(Next(s, e))
  {
    if e.Rename? || e.Return? { assert ThreadOk(s, e.t, s.threads[e.t]); }
  }

  lemma SaveKeepsSaver(s: State, e: Event)
    requires Invariant(s) && Saves(s, e) && !e.Call?
    ensures e.t in Next(s, e).threads ==> ThreadOk(Next(s, e), e.t, Next(s, e).threads[e.t])
  {
    assert ThreadOk(s, e.t, s.threads[e.t]);
    if e.TakeExport? { assert s.log[..|s.log|] == s.log; }
  }

  lemma SaveKeepsOthers(s: State, e: Event, u: nat)
    requires Invariant(s) && Saves(s, e) && u in s.threads && u != e.t
    ensures ThreadOk(Next(s, e), u, s.threads[u])
  {
    assert ThreadOk(s, u, s.threads[u]);
    if !e.Call? { assert ThreadOk(s, e.t, s.threads[e.t]); }
  }

  lemma SaveKeeps(s: State, e: Event)
    requires Invariant(s) && Saves(s, e)
    ensures Invariant(Next(s, e))
  {
    var s' := Next(s, e);
    SaveKeepsFile(s, e);
    if !e.Call? { SaveKeepsSaver(s, e); }
    forall u | u in s'.threads && u != e.t ensures ThreadOk(s', u, s'.threads[u]) {
      SaveKeepsOthers(s, e, u);
    }
  }

  lemma StepKeepsInvariant(s: State, e: Event)
    requires Invariant(s) && Enabled(s, e)
    ensures Invariant(Next(s, e))
  {
    match e
    case Commit(t) => CommitKeeps(s, t);
    case Crash => CrashKeeps(s);
    case _ => SaveKeeps(s, e);
  }

  lemma {:induction false} RunKeepsInvariant(ss: seq<State>, es: seq<Event>, n: nat)
    requires Run(ss, es) && n < |ss|
    ensures Invariant(ss[n])
    decreases n
  {
    if n > 0 {
      RunKeepsInvariant(ss, es, n - 1);
      StepKeepsInvariant(ss[n - 1], es[n - 1]);
    }
  }

  // ----- every snapshot was taken from the store -----

  /** `snap` is the export of the store at some moment up to `n`. */
  ghost predicate TakenBy(ss: seq<State>, n: nat, snap: seq<SnapZone>)
    requires n < |ss|
  {
    exists i :: 0 <= i <= n && IsExport(ss[i].mem, snap)
  }

  /** The snapshot that a call is about to write. */
  ghost predicate Carries(pc: Pc, snap: seq<SnapZone>) {
    (pc.Exported? || pc.Writing?) && pc.snap == snap
  }

  ghost predicate InPlay(s: State, snap: seq<SnapZone>) {
    s.file == Some(snap) || s.tmp == Some(snap) || exists t :: t in s.threads && Carries(s.threads[t], snap)
  }

  /** A step brings no snapshot into play but the export of the store at that moment. */
  lemma InPlayMoves(s: State, e: Event, snap: seq<SnapZone>)
    requires Enabled(s, e) && InPlay(Next(s, e), snap)
    ensures InPlay(s, snap) || IsExport(s.mem, snap)
  {
    var s' := Next(s, e);
    if s'.file == Some(snap) || s'.tmp == Some(snap) {
      if e.Write? { assert s.threads[e.t].snap == snap ==> Carries(s.threads[e.t], snap); }
    } else {
      var t :| t in s'.threads && Carries(s'.threads[t], snap);
      CarriedMoves(s, e, t, snap);
    }
  }

  lemma CarriedMoves(s: State, e: Event, t: nat, snap: seq<SnapZone>)
    requires Enabled(s, e) && t in Next(s, e).threads && Carries(Next(s, e).threads[t], snap)
    ensures (t in s.threads && Carries(s.threads[t], snap)) || IsExport(s.mem, snap)
  {
  }

  lemma {:induction false} InPlayWasTaken(ss: seq<State>, es: seq<Event>, n: nat, snap: seq<SnapZone>)
    requires Run(ss, es) && n < |ss| && InPlay(ss[n], snap)
    ensures TakenBy(ss, n, snap)
  {
    if n > 0 {
      InPlayMoves(ss[n - 1], es[n - 1], snap);
      if InPlay(ss[n - 1], snap) {
        InPlayWasTaken(ss, es, n - 1, snap);
      }
    }
  }

  // ----- what it means -----

  /**
   * At every moment of every run: the state file is the export of the store at some earlier moment of the run, a restart
   * would load that state, and all the changes whose calls have returned success are among those that made it.
   */
  lemma StateFileIsDurable(ss: seq<State>, es: seq<Event>, n: nat)
    requires Run(ss, es) && n < |ss|
    ensures ss[n].file.Some? ==> exists i :: 0 <= i <= n && IsExport(ss[i].mem, ss[n].file.value)
    ensures ss[n].mem == Replay(ss[n].log)
    ensures ss[n].version <= |ss[n].log|
    ensures ss[n].file.Some? ==> IsExport(Replay(ss[n].log[..ss[n].version]), ss[n].file.value)
    ensures Recovered(ss[n].file) == Normalised(Replay(ss[n].log[..ss[n].version]))
    ensures forall v :: v in ss[n].acked ==> 0 < v <= ss[n].version && ss[n].log[v - 1] == Did(ss[n].acked[v])
  {
    RunKeepsInvariant(ss, es, n);
    RecoveredIsReplay(ss[n]);
    if ss[n].file.Some? { InPlayWasTaken(ss, es, n, ss[n].file.value); }
  }

  /** The state file at `s'` is no older than the one at `s` and builds on it. */
  ghost predicate NoOlder(s: State, s': State) {
    && s.version <= |s.log| && s'.version <= |s'.log|
    && s.log[..s.version] <= s'.log[..s'.version]
    && forall v :: v in s.acked ==> v in s'.acked && s'.acked[v] == s.acked[v]
  }

  lemma StepNoOlder(s: State, e: Event)
    requires Invariant(s) && Enabled(s, e) && Invariant(Next(s, e))
    ensures NoOlder(s, Next(s, e))
  {
    match e
    case Rename(t) => assert ThreadOk(s, t, s.threads[t]);
    case Return(t) => assert ThreadOk(s, t, s.threads[t]);
    case _ =>
  }

  /** The state file never goes back, over any number of crashes, and no acknowledged change is ever lost. */
  lemma {:induction false} VersionNeverGoesBack(ss: seq<State>, es: seq<Event>, m: nat, n: nat)
    requires Run(ss, es) && m <= n < |ss|
    ensures NoOlder(ss[m], ss[n])
    decreases n - m
  {
    RunKeepsInvariant(ss, es, m);
    if m < n {
      RunKeepsInvariant(ss, es, m + 1);
      StepNoOlder(ss[m], es[m]);
      VersionNeverGoesBack(ss, es, m + 1, n);
    }
  }
}
