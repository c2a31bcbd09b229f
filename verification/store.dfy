/** The in-memory store of tenant zones: `Store` and its operations, and what each of them does to the zones map. */
module TenantStore {
  import opened Bytes
  import opened Options

  datatype Record = Record(id: Str, name: Str, rtype: Str, ttl: nat, content: Str, priority: nat, proxied: bool, created: int, updated: int)

  datatype Info = Info(id: Str, name: Str, org: Str, provider: Str, status: Str, nameservers: seq<Str>, dnssec: bool, created: int, updated: int)

  datatype Entry = Entry(zone: Info, records: map<Str, Record>)

  /** Keyed by normalised zone name. */
  type Zones = map<Str, Entry>

  // A, AAAA, CNAME, MX, TXT, SRV, NS, SOA and CAA.
  const VALID_TYPES: set<Str> := {
    [65], [65, 65, 65, 65], [67, 78, 65, 77, 69], [77, 88], [84, 88, 84], [83, 82, 86], [78, 83], [83, 79, 65], [67, 65, 65]
  }

  const ACTIVE: Str := [97, 99, 116, 105, 118, 101]
  const AUTHORITATIVE: Str := [97, 117, 116, 104, 111, 114, 105, 116, 97, 116, 105, 118, 101]
  // ns1.hanzo.ai. and ns2.hanzo.ai.
  const NAMESERVERS: seq<Str> := [
    [110, 115, 49, 46, 104, 97, 110, 122, 111, 46, 97, 105, 46],
    [110, 115, 50, 46, 104, 97, 110, 122, 111, 46, 97, 105, 46]
  ]

  // ----- normalising zone names -----

  predicate IsSpace(c: Octet) {
    c == 32 || 9 <= c <= 13
  }

  function TrimLeft(s: Str): Str {
    if s != [] && IsSpace(s[0]) then TrimLeft(s[1..]) else s
  }

  function TrimRight(s: Str): Str {
    if s != [] && IsSpace(s[|s| - 1]) then TrimRight(s[..|s| - 1]) else s
  }

  /** `normZone`: trimmed, lower-cased and with a closing dot. */
  function NormZone(s: Str): Str {
    var n := ToLower(TrimRight(TrimLeft(s)));
    if n != [] && n[|n| - 1] == DOT then n else n + [DOT]
  }

  lemma {:induction false} Trimmed(s: Str)
    ensures TrimLeft(s) == [] || !IsSpace(TrimLeft(s)[0])
    ensures TrimRight(s) == [] || (!IsSpace(TrimRight(s)[|TrimRight(s)| - 1]) && TrimRight(s)[0] == s[0])
    decreases |s|
  {
    if s != [] {
      Trimmed(s[1..]);
      Trimmed(s[..|s| - 1]);
    }
  }

  /** A name as the store keeps it: no capitals, no space at either end, and a closing dot. */
  predicate IsNormal(s: Str) {
    s != [] && s[|s| - 1] == DOT && !IsSpace(s[0]) && forall i :: 0 <= i < |s| ==> !(65 <= s[i] <= 90)
  }

  lemma {:induction false} TrimUntouched(s: Str)
    ensures s == [] || !IsSpace(s[0]) ==> TrimLeft(s) == s
    ensures s == [] || !IsSpace(s[|s| - 1]) ==> TrimRight(s) == s
  {
  }

  /** Every result is normal. */
  lemma NormZoneNormal(s: Str)
    ensures IsNormal(NormZone(s))
  {
    Trimmed(s);
    Trimmed(TrimLeft(s));
    var n := ToLower(TrimRight(TrimLeft(s)));
    assert n != [] ==> n[0] == Lower(TrimLeft(s)[0]);
  }

  /** A normal name is kept as it is. */
  lemma NormZoneKeepsNormal(s: Str)
    requires IsNormal(s)
    ensures NormZone(s) == s
  {
    TrimUntouched(s);
    assert ToLower(s) == s;
  }

  /** Normalising twice is normalising once. */
  lemma NormZoneIdempotent(s: Str)
    ensures NormZone(NormZone(s)) == NormZone(s)
  {
    NormZoneNormal(s);
    NormZoneKeepsNormal(NormZone(s));
  }

  lemma {:induction false} TrimLower(s: Str)
    ensures TrimLeft(ToLower(s)) == ToLower(TrimLeft(s)) && TrimRight(ToLower(s)) == ToLower(TrimRight(s))
    decreases |s|
  {
    if s != [] {
      assert ToLower(s)[1..] == ToLower(s[1..]) && ToLower(s)[..|s| - 1] == ToLower(s[..|s| - 1]);
      TrimLower(s[1..]);
      TrimLower(s[..|s| - 1]);
    }
  }

  /** Capitals do not matter. */
  lemma NormZoneIgnoresCase(s: Str, t: Str)
    requires ToLower(s) == ToLower(t)
    ensures NormZone(s) == NormZone(t)
  {
    TrimLower(s);
    TrimLower(t);
    TrimLower(TrimLeft(s));
    TrimLower(TrimLeft(t));
  }

  lemma {:induction false} TrimLeftBefore(s: Str, c: Octet)
    requires IsSpace(c)
    ensures TrimLeft(s + [c]) == if TrimLeft(s) == [] then [] else TrimLeft(s) + [c]
    decreases |s|
  {
    if s == [] {
      assert [] + [c] == [c] && [c][1..] == [];
    } else {
      assert (s + [c])[1..] == s[1..] + [c];
      if IsSpace(s[0]) { TrimLeftBefore(s[1..], c); }
    }
  }

  lemma SpaceBefore(s: Str, c: Octet)
    requires IsSpace(c)
    ensures NormZone([c] + s) == NormZone(s)
  {
    assert ([c] + s)[1..] == s;
  }

  lemma SpaceAfter(s: Str, c: Octet)
    requires IsSpace(c)
    ensures NormZone(s + [c]) == NormZone(s)
  {
    TrimLeftBefore(s, c);
    var t := TrimLeft(s);
    if t != [] {
      assert (t + [c])[..|t|] == t;
      assert TrimRight(t + [c]) == TrimRight(t);
    }
  }

  /** Space around the name does not matter, and neither does a missing closing dot. */
  lemma NormZoneIgnoresSpaceAndDot(s: Str, c: Octet)
    requires IsSpace(c)
    ensures NormZone([c] + s) == NormZone(s) && NormZone(s + [c]) == NormZone(s)
    ensures s == [] || (s[|s| - 1] != DOT && !IsSpace(s[|s| - 1])) ==> NormZone(s + [DOT]) == NormZone(s)
  {
    SpaceBefore(s, c);
    SpaceAfter(s, c);
    if s == [] || (s[|s| - 1] != DOT && !IsSpace(s[|s| - 1])) { DottedAlike(s); }
  }

  lemma {:induction false} TrimLeftDot(s: Str)
    requires s == [] || !IsSpace(s[|s| - 1])
    ensures TrimLeft(s + [DOT]) == TrimLeft(s) + [DOT] && (TrimLeft(s) != [] ==> TrimLeft(s)[|TrimLeft(s)| - 1] == s[|s| - 1])
    ensures s != [] ==> TrimLeft(s) != []
    decreases |s|
  {
    if s != [] {
      assert (s + [DOT])[1..] == s[1..] + [DOT];
      if IsSpace(s[0]) { TrimLeftDot(s[1..]); }
    }
  }

  lemma LowerDot(t: Str)
    ensures ToLower(t + [DOT]) == ToLower(t) + [DOT]
    ensures t != [] && t[|t| - 1] != DOT ==> ToLower(t)[|t| - 1] != DOT
  {
    assert ToLower(t + [DOT])[|t|] == Lower(DOT) == DOT;
  }

  lemma DottedAlike(s: Str)
    requires s == [] || (s[|s| - 1] != DOT && !IsSpace(s[|s| - 1]))
    ensures NormZone(s + [DOT]) == NormZone(s)
  {
    TrimLeftDot(s);
    var t := TrimLeft(s);
    assert TrimRight(t + [DOT]) == t + [DOT] && TrimRight(t) == t by { TrimUntouched(t + [DOT]); TrimUntouched(t); }
    LowerDot(t);
  }

  // ----- the operations on the map -----

  /** Optional fields of `RecordPatch`. */
  datatype Patch = Patch(name: Option<Str>, rtype: Option<Str>, ttl: Option<nat>, content: Option<Str>, priority: Option<nat>, proxied: Option<bool>)

  /** One record of a bulk sync; `spare` is the identifier generated when `id` is empty. */
  datatype SyncRecord = SyncRecord(id: Str, spare: Str, name: Str, rtype: Str, ttl: nat, content: Str, priority: nat, proxied: bool)

  /** A mutating call of the API; generated identifiers and the time are inputs. */
  datatype Op =
    | CreateZone(org: Str, zone: Str, provider: Str, spare: Str, now: int)
    | DeleteZone(org: Str, zone: Str)
    | CreateRecord(org: Str, zone: Str, name: Str, rtype: Str, ttl: nat, content: Str, priority: nat, proxied: bool, spare: Str, now: int)
    | PutMirror(org: Str, zone: Str, rec: Record, now: int)
    | DropMirror(org: Str, zone: Str, id: Str, now: int)
    | UpdateRecord(org: Str, zone: Str, id: Str, patch: Patch, now: int)
    | DeleteRecord(org: Str, zone: Str, id: Str, now: int)
    | BulkSync(org: Str, zone: Str, items: seq<SyncRecord>, spare: Str, now: int)

  /** The new map, whether the call returned without an error, and whether it notified the snapshot hook. */
  datatype Effect = Effect(zones: Zones, ok: bool, notified: bool)

  /** `zoneForOrg`: the key of the zone if it exists and belongs to the organisation. */
  function ZoneForOrg(s: Zones, org: Str, name: Str): Option<Str> {
    var key := NormZone(name);
    if key in s && s[key].zone.org == org then Some(key) else None
  }

  function NewInfo(id: Str, key: Str, org: Str, provider: Str, now: int): Info {
    Info(id, key, org, provider, ACTIVE, NAMESERVERS, false, now, now)
  }

  function Touched(e: Entry, records: map<Str, Record>, now: int): Entry {
    Entry(e.zone.(updated := now), records)
  }

  function Or<T>(o: Option<T>, x: T): T {
    match o case Some(v) => v case None => x
  }

  function Renamed(r: Record, p: Patch): Record {
    r.(name := Or(p.name, r.name))
  }

  function Patched(r: Record, p: Patch, now: int): Record {
    Record(r.id, Or(p.name, r.name), Or(p.rtype, r.rtype), Or(p.ttl, r.ttl), Or(p.content, r.content),
           Or(p.priority, r.priority), Or(p.proxied, r.proxied), r.created, now)
  }

  function Synced(i: SyncRecord, now: int): Record {
    Record(if i.id == [] then i.spare else i.id, i.name, i.rtype, if i.ttl == 0 then 300 else i.ttl, i.content, i.priority, i.proxied, now, now)
  }

  /** The records a bulk sync installs: invalid types are skipped, later items replace earlier ones with the same identifier. */
  function SyncRecords(items: seq<SyncRecord>, now: int): map<Str, Record> {
    if items == [] then map[]
    else
      var rest, i := SyncRecords(items[..|items| - 1], now), items[|items| - 1];
      if i.rtype !in VALID_TYPES then rest else rest[Synced(i, now).id := Synced(i, now)]
  }

  /** Item `i` is the last one of a valid type that claims identifier `id`. */
  ghost predicate LastFor(items: seq<SyncRecord>, now: int, id: Str, i: int) {
    && 0 <= i < |items| && items[i].rtype in VALID_TYPES && Synced(items[i], now).id == id
    && forall j :: i < j < |items| && items[j].rtype in VALID_TYPES ==> Synced(items[j], now).id != id
  }

  /** A bulk sync keeps, for every identifier, exactly the last valid item that claims it. */
  lemma {:induction false} SyncKeepsLast(items: seq<SyncRecord>, now: int, id: Str)
    ensures id in SyncRecords(items, now) <==> exists i :: LastFor(items, now, id, i)
    ensures forall i :: LastFor(items, now, id, i) ==> id in SyncRecords(items, now) && SyncRecords(items, now)[id] == Synced(items[i], now)
  {
    if items != [] {
      var n := |items| - 1;
      SyncKeepsLast(items[..n], now, id);
      if items[n].rtype in VALID_TYPES && Synced(items[n], now).id == id {
        assert LastFor(items, now, id, n);
      } else {
        assert forall i :: LastFor(items, now, id, i) <==> LastFor(items[..n], now, id, i);
      }
    }
  }

  function Unchanged(s: Zones, ok: bool): Effect {
    Effect(s, ok, false)
  }

  /** `UpdateRecord` sets the name before it looks at the type. */
  function ApplyUpdate(s: Zones, key: Str, id: Str, p: Patch, now: int): Effect
    requires key in s
  {
    var e := s[key];
    if id !in e.records then Unchanged(s, false)
    else if p.rtype.Some? && p.rtype.value !in VALID_TYPES then
      Effect(s[key := e.(records := e.records[id := Renamed(e.records[id], p)])], false, false)
    else Effect(s[key := Touched(e, e.records[id := Patched(e.records[id], p, now)], now)], true, true)
  }

  function ApplyBulkSync(s: Zones, key: Str, op: Op): Effect
    requires op.BulkSync?
  {
    if key in s && s[key].zone.org != op.org then Effect(s, false, true)
    else
      var e := if key in s then s[key] else Entry(NewInfo(op.spare, key, op.org, [], op.now), map[]);
      Effect(s[key := Touched(e, SyncRecords(op.items, op.now), op.now)], true, true)
  }

  /** An operation on an existing zone of the caller's organisation. */
  function ApplyInZone(s: Zones, key: Str, op: Op): Effect
    requires key in s
  {
    var e := s[key];
    match op
    case DeleteZone(_, _) => Effect(s - {key}, true, true)
    case CreateRecord(_, _, name, rtype, ttl, content, priority, proxied, id, now) =>
      Effect(s[key := Touched(e, e.records[id := Record(id, name, rtype, ttl, content, priority, proxied, now, now)], now)], true, true)
    case PutMirror(_, _, rec, now) =>
      var created := if rec.id in e.records then e.records[rec.id].created else now;
      Effect(s[key := Touched(e, e.records[rec.id := rec.(created := created, updated := now)], now)], true, true)
    case DropMirror(_, _, id, now) =>
      if id in e.records then Effect(s[key := Touched(e, e.records - {id}, now)], true, true) else Unchanged(s, true)
    case UpdateRecord(_, _, id, patch, now) => ApplyUpdate(s, key, id, patch, now)
    case DeleteRecord(_, _, id, now) =>
      if id in e.records then Effect(s[key := Touched(e, e.records - {id}, now)], true, true) else Unchanged(s, false)
    case _ => Unchanged(s, false)
  }

  /** What a call does to the store. */
  function Apply(s: Zones, op: Op): Effect {
    var key := NormZone(op.zone);
    match op
    case CreateZone(org, _, provider, id, now) =>
      if key in s then Unchanged(s, false)
      else Effect(s[key := Entry(NewInfo(id, key, org, provider, now), map[])], true, true)
    case BulkSync(_, _, _, _, _) => ApplyBulkSync(s, key, op)
    case CreateRecord(_, _, _, rtype, _, _, _, _, _, _) =>
      if rtype !in VALID_TYPES || ZoneForOrg(s, op.org, op.zone).None? then Unchanged(s, false) else ApplyInZone(s, key, op)
    case PutMirror(_, _, rec, _) =>
      if rec.id == [] || rec.rtype !in VALID_TYPES || ZoneForOrg(s, op.org, op.zone).None? then Unchanged(s, false) else ApplyInZone(s, key, op)
    case DropMirror(_, _, _, _) =>
      if ZoneForOrg(s, op.org, op.zone).None? then Unchanged(s, true) else ApplyInZone(s, key, op)
    case _ =>
      if ZoneForOrg(s, op.org, op.zone).None? then Unchanged(s, false) else ApplyInZone(s, key, op)
  }

  // ----- what every operation keeps -----

  ghost predicate RecordsKeyed(m: map<Str, Record>) {
    forall id :: id in m ==> m[id].id == id && m[id].rtype in VALID_TYPES
  }

  /** Keys are normalised names, record keys are identifiers, and all types are valid. */
  ghost predicate Keyed(s: Zones) {
    forall k :: k in s ==> EntryKeyed(k, s[k])
  }

  lemma {:induction false} SyncRecordsKeyed(items: seq<SyncRecord>, now: int)
    ensures RecordsKeyed(SyncRecords(items, now))
  {
    if items != [] {
      SyncRecordsKeyed(items[..|items| - 1], now);
    }
  }

  ghost predicate EntryKeyed(key: Str, e: Entry) {
    e.zone.name == key && NormZone(key) == key && RecordsKeyed(e.records)
  }

  /** A call touches the named zone and nothing else, and only when that zone is free or the caller's. */
  ghost predicate OnlyTouches(s: Zones, key: Str, org: Str, s': Zones) {
    s' == s || ((key in s ==> s[key].zone.org == org) && (s' == s - {key} || (key in s' && s' == s[key := s'[key]] && s'[key].zone.org == org)))
  }

  lemma InZoneTouches(s: Zones, key: Str, op: Op)
    requires key in s && s[key].zone.org == op.org
    ensures OnlyTouches(s, key, op.org, ApplyInZone(s, key, op).zones)
  {
  }

  lemma ApplyTouches(s: Zones, op: Op)
    ensures OnlyTouches(s, NormZone(op.zone), op.org, Apply(s, op).zones)
  {
    var key := NormZone(op.zone);
    if key in s && s[key].zone.org == op.org { InZoneTouches(s, key, op); }
  }

  lemma InZoneKeyed(s: Zones, key: Str, op: Op)
    requires key in s && EntryKeyed(key, s[key])
    requires op.CreateRecord? ==> op.rtype in VALID_TYPES
    requires op.PutMirror? ==> op.rec.rtype in VALID_TYPES
    ensures key in ApplyInZone(s, key, op).zones ==> EntryKeyed(key, ApplyInZone(s, key, op).zones[key])
  {
  }

  lemma ApplyKeepsEntryKeyed(s: Zones, key: Str, op: Op)
    requires key == NormZone(op.zone) == NormZone(key)
    requires key in s ==> EntryKeyed(key, s[key])
    ensures key in Apply(s, op).zones ==> EntryKeyed(key, Apply(s, op).zones[key])
  {
    if op.BulkSync? { SyncRecordsKeyed(op.items, op.now); }
    if key in s && (op.CreateRecord? ==> op.rtype in VALID_TYPES) && (op.PutMirror? ==> op.rec.rtype in VALID_TYPES) {
      InZoneKeyed(s, key, op);
    }
  }

  lemma ApplyKeepsKeyed(s: Zones, op: Op)
    requires Keyed(s)
    ensures Keyed(Apply(s, op).zones)
  {
    var key, s' := NormZone(op.zone), Apply(s, op).zones;
    NormZoneIdempotent(op.zone);
    ApplyKeepsEntryKeyed(s, key, op);
    forall k | k in s' && k != key ensures EntryKeyed(k, s'[k]) {
      ApplyTouches(s, op);
    }
  }

  /** The zones of one organisation, with their records. */
  ghost function View(s: Zones, org: Str): Zones {
    map k | k in s && s[k].zone.org == org :: s[k]
  }

  /** A call for one organisation leaves the zones of every other one as they are, and no zone changes hands. */
  lemma ApplyIsolates(s: Zones, op: Op, other: Str)
    requires other != op.org
    ensures View(Apply(s, op).zones, other) == View(s, other)
    ensures OwnersKept(s, Apply(s, op).zones)
  {
    ApplyTouches(s, op);
    TouchIsolates(s, NormZone(op.zone), op.org, Apply(s, op).zones, other);
  }

  lemma TouchIsolates(s: Zones, key: Str, org: Str, s': Zones, other: Str)
    requires OnlyTouches(s, key, org, s') && other != org
    ensures View(s', other) == View(s, other) && OwnersKept(s, s')
  {
  }

  /** No zone that stays changes hands. */
  ghost predicate OwnersKept(s: Zones, s': Zones) {
    forall k :: k in s && k in s' ==> s'[k].zone.org == s[k].zone.org
  }

  /** What an organisation can reach through the gate depends on its own zones only. */
  lemma GateSeesOwnZones(s: Zones, t: Zones, org: Str, name: Str)
    requires View(s, org) == View(t, org)
    ensures ZoneForOrg(s, org, name) == ZoneForOrg(t, org, name)
    ensures ZoneForOrg(s, org, name).Some? ==> s[NormZone(name)] == t[NormZone(name)]
  {
    var key := NormZone(name);
    assert key in View(s, org) <==> key in View(t, org);
    assert key in View(s, org) ==> View(s, org)[key] == View(t, org)[key];
  }

  function ApplyAll(s: Zones, ops: seq<Op>): Zones
    decreases |ops|
  {
    if ops == [] then s else ApplyAll(Apply(s, ops[0]).zones, ops[1..])
  }

  /** Over every trace of calls the store stays keyed. */
  lemma {:induction false} TraceKeepsKeyed(s: Zones, ops: seq<Op>)
    requires Keyed(s)
    ensures Keyed(ApplyAll(s, ops))
    decreases |ops|
  {
    if ops != [] {
      ApplyKeepsKeyed(s, ops[0]);
      TraceKeepsKeyed(Apply(s, ops[0]).zones, ops[1..]);
    }
  }

  /** Whatever the other organisations do, over every trace, the zones of `org` are exactly what they were. */
  lemma {:induction false} TraceIsolates(s: Zones, org: Str, ops: seq<Op>)
    requires forall i :: 0 <= i < |ops| ==> ops[i].org != org
    ensures View(ApplyAll(s, ops), org) == View(s, org)
    decreases |ops|
  {
    if ops != [] {
      ApplyIsolates(s, ops[0], org);
      TraceIsolates(Apply(s, ops[0]).zones, org, ops[1..]);
    }
  }

  // ----- failed calls -----

  /** The one call that fails half way: it renames the record and then rejects the type. */
  predicate RenamesThenFails(s: Zones, op: Op) {
    && op.UpdateRecord?
    && var key := ZoneForOrg(s, op.org, op.zone);
    && key.Some? && op.id in s[key.value].records
    && op.patch.rtype.Some? && op.patch.rtype.value !in VALID_TYPES
    && Renamed(s[key.value].records[op.id], op.patch) != s[key.value].records[op.id]
  }

  /** A failed call leaves the store as it was, and a change is announced, except by that one call. */
  lemma FailureIsCleanIff(s: Zones, op: Op)
    ensures !Apply(s, op).ok ==> (Apply(s, op).zones == s <==> !RenamesThenFails(s, op))
    ensures Apply(s, op).zones != s ==> (Apply(s, op).notified <==> !RenamesThenFails(s, op))
    ensures RenamesThenFails(s, op) ==> !Apply(s, op).ok
  {
    var key := NormZone(op.zone);
    if && op.UpdateRecord? && key in s && s[key].zone.org == op.org && op.id in s[key].records
       && op.patch.rtype.Some? && op.patch.rtype.value !in VALID_TYPES {
      UpdateFailure(s, key, op.id, op.patch, op.now);
    }
  }

  /** A store reached by two calls, and a third call that fails but renames a record without announcing it. */
  lemma RenameOutlivesFailure(org: Str, zone: Str, id: Str, name: Str, other: Str) returns (s: Zones, op: Op)
    requires name != other
    ensures s == ApplyAll(map[], [
      Op.CreateZone(org, zone, AUTHORITATIVE, [1], 0),
      Op.CreateRecord(org, zone, name, [65], 60, [], 0, false, id, 0)])
    ensures op == Op.UpdateRecord(org, zone, id, Patch(Some(other), Some([]), None, None, None, None), 1)
    ensures !Apply(s, op).ok && !Apply(s, op).notified && Apply(s, op).zones != s
  {
    var a, b := Op.CreateZone(org, zone, AUTHORITATIVE, [1], 0), Op.CreateRecord(org, zone, name, [65], 60, [], 0, false, id, 0);
    op := Op.UpdateRecord(org, zone, id, Patch(Some(other), Some([]), None, None, None, None), 1);
    assert [a, b][1..] == [b] && [b][1..] == [];
    var first := Apply(map[], a).zones;
    s := Apply(first, b).zones;
    assert ApplyAll(map[], [a, b]) == ApplyAll(first, [b]) == ApplyAll(s, []) == s;
    var key := NormZone(zone);
    assert s[key].records[id].name == name && s[key].zone.org == org;
    FailureIsCleanIff(s, op);
  }

  lemma UpdateFailure(s: Zones, key: Str, id: Str, p: Patch, now: int)
    requires key in s && id in s[key].records && p.rtype.Some? && p.rtype.value !in VALID_TYPES
    ensures ApplyUpdate(s, key, id, p, now).zones == s <==> Renamed(s[key].records[id], p) == s[key].records[id]
  {
    var e := s[key];
    var r := Renamed(e.records[id], p);
    var s' := ApplyUpdate(s, key, id, p, now).zones;
    assert s'[key].records[id] == r;
    if r == e.records[id] {
      assert e.records[id := r] == e.records;
      assert s[key := e] == s;
    }
  }

  // ----- the store as the program updates it -----

  /** The organisation owns the zone kept under this key. */
  predicate Owns(s: Zones, org: Str, key: Str) {
    key in s && s[key].zone.org == org
  }

  /** The record is in the zone under its identifier, the zone is touched, and all else is what it was. */
  ghost predicate Stored(s: Zones, s': Zones, key: Str, id: Str, r: Record, now: int) {
    key in s && s' == s[key := Entry(s[key].zone.(updated := now), s[key].records[id := r])]
  }

  /** The patch is for a record of the organisation's own. */
  predicate Patches(s: Zones, org: Str, key: Str, id: Str) {
    Owns(s, org, key) && id in s[key].records
  }

  /** The name is set and nothing else. */
  ghost predicate OnlyRenamed(s: Zones, s': Zones, key: Str, id: Str, name: Str) {
    key in s && id in s[key].records && s' == s[key := Entry(s[key].zone, s[key].records[id := s[key].records[id].(name := name)])]
  }

  ghost predicate Removed(s: Zones, s': Zones, key: Str, id: Str, now: int) {
    key in s && s' == s[key := Entry(s[key].zone.(updated := now), s[key].records - {id})]
  }

  /** Every field that the patch names has the patch's value, every other one its old value, and the time is new. */
  ghost predicate IsPatched(r: Record, p: Patch, now: int, u: Record) {
    && u.id == r.id && u.created == r.created && u.updated == now
    && (if p.name.Some? then u.name == p.name.value else u.name == r.name)
    && (if p.rtype.Some? then u.rtype == p.rtype.value else u.rtype == r.rtype)
    && (if p.ttl.Some? then u.ttl == p.ttl.value else u.ttl == r.ttl)
    && (if p.content.Some? then u.content == p.content.value else u.content == r.content)
    && (if p.priority.Some? then u.priority == p.priority.value else u.priority == r.priority)
    && (if p.proxied.Some? then u.proxied == p.proxied.value else u.proxied == r.proxied)
  }

  /** The record made from one item: its own identifier or a new one, its own TTL or 300, and the time. */
  ghost predicate IsSynced(i: SyncRecord, now: int, r: Record) {
    && (if i.id == [] then r.id == i.spare else r.id == i.id) && (if i.ttl == 0 then r.ttl == 300 else r.ttl == i.ttl)
    && r.name == i.name && r.rtype == i.rtype && r.content == i.content && r.priority == i.priority && r.proxied == i.proxied
    && r.created == now && r.updated == now
  }

  /** The zone's own data after a sync: those it had, or those of a new zone without provider. */
  ghost predicate SyncedZone(s: Zones, org: Str, key: Str, id: Str, now: int, z: Info) {
    if key in s then z == s[key].zone.(updated := now) else z == Info(id, key, org, [], ACTIVE, NAMESERVERS, false, now, now)
  }

  /** Each record is made from the last valid item that claims its identifier, and each such item has made one. */
  ghost predicate SyncedRecords(items: seq<SyncRecord>, now: int, m: map<Str, Record>) {
    && (forall id :: id in m <==> exists i :: LastFor(items, now, id, i))
    && (forall id, i :: LastFor(items, now, id, i) ==> id in m && m[id].id == id && IsSynced(items[i], now, m[id]))
  }

  lemma SyncMeans(items: seq<SyncRecord>, now: int)
    ensures SyncedRecords(items, now, SyncRecords(items, now))
  {
    forall id ensures (id in SyncRecords(items, now) <==> exists i :: LastFor(items, now, id, i))
      && forall i :: LastFor(items, now, id, i) ==> id in SyncRecords(items, now) && SyncRecords(items, now)[id] == Synced(items[i], now)
    {
      SyncKeepsLast(items, now, id);
    }
  }

  /** The loop of `BulkSync` over the items. */
  method SyncItems(items: seq<SyncRecord>, now: int) returns (records: map<Str, Record>)
    ensures records == SyncRecords(items, now) && SyncedRecords(items, now, records)
  {
    records := map[];
    for i := 0 to |items|
      invariant records == SyncRecords(items[..i], now)
    {
      assert items[..i + 1][..i] == items[..i];
      if items[i].rtype !in VALID_TYPES {
        continue;
      }
      var r := Synced(items[i], now);
      records := records[r.id := r];
    }
    assert items[..|items|] == items;
    SyncMeans(items, now);
  }

  lemma SameRecord(s: Zones, key: Str, id: Str)
    requires key in s && id in s[key].records
    ensures s[key := s[key].(records := s[key].records[id := s[key].records[id]])] == s
  {
    assert s[key].records[id := s[key].records[id]] == s[key].records;
    assert s[key].(records := s[key].records) == s[key];
  }

  /** Each method runs under the write lock; `notified` says whether it then calls the change hook. */
  class Store {
    var zones: Zones

    constructor ()
      ensures zones == map[] && Keyed(zones)
    {
      zones := map[];
    }

    method CreateZone(org: Str, name: Str, provider: Str, id: Str, now: int) returns (z: Option<Info>, notified: bool)
      modifies this
      ensures Effect(zones, z.Some?, notified) == Apply(old(zones), Op.CreateZone(org, name, provider, id, now))
      ensures z.Some? <==> NormZone(name) !in old(zones)
      ensures z.Some? ==> z.value == Info(id, NormZone(name), org, provider, ACTIVE, NAMESERVERS, false, now, now)
      ensures zones == if z.Some? then old(zones)[NormZone(name) := Entry(z.value, map[])] else old(zones)
      ensures notified == z.Some?
    {
      var key := NormZone(name);
      if key in zones {
        return None, false;
      }
      z := Some(NewInfo(id, key, org, provider, now));
      zones := zones[key := Entry(z.value, map[])];
      return z, true;
    }

    method DeleteZone(org: Str, name: Str) returns (ok: bool, notified: bool)
      modifies this
      ensures Effect(zones, ok, notified) == Apply(old(zones), Op.DeleteZone(org, name))
      ensures ok <==> NormZone(name) in old(zones) && old(zones)[NormZone(name)].zone.org == org
      ensures zones == (if ok then old(zones) - {NormZone(name)} else old(zones)) && notified == ok
    {
      var key := ZoneForOrg(zones, org, name);
      if key.None? {
        return false, false;
      }
      zones := zones - {key.value};
      return true, true;
    }

    method CreateRecord(org: Str, zone: Str, name: Str, rtype: Str, ttl: nat, content: Str, priority: nat, proxied: bool, id: Str, now: int)
      returns (r: Option<Record>, notified: bool)
      modifies this
      ensures Effect(zones, r.Some?, notified) == Apply(old(zones), Op.CreateRecord(org, zone, name, rtype, ttl, content, priority, proxied, id, now))
      ensures r.Some? <==> rtype in VALID_TYPES && Owns(old(zones), org, NormZone(zone))
      ensures r.Some? ==> r.value == Record(id, name, rtype, ttl, content, priority, proxied, now, now)
      ensures if r.Some? then Stored(old(zones), zones, NormZone(zone), id, r.value, now) else zones == old(zones)
      ensures notified == r.Some?
    {
      if rtype !in VALID_TYPES {
        return None, false;
      }
      var key := ZoneForOrg(zones, org, zone);
      if key.None? {
        return None, false;
      }
      var e := zones[key.value];
      r := Some(Record(id, name, rtype, ttl, content, priority, proxied, now, now));
      e := e.(records := e.records[id := r.value]);
      e := e.(zone := e.zone.(updated := now));
      zones := zones[key.value := e];
      return r, true;
    }

    method PutMirror(org: Str, zone: Str, rec: Record, now: int) returns (ok: bool, notified: bool)
      modifies this
      ensures Effect(zones, ok, notified) == Apply(old(zones), Op.PutMirror(org, zone, rec, now))
      ensures ok <==> rec.id != [] && rec.rtype in VALID_TYPES && Owns(old(zones), org, NormZone(zone))
      ensures ok ==> exists created ::
        && (if rec.id in old(zones)[NormZone(zone)].records then created == old(zones)[NormZone(zone)].records[rec.id].created else created == now)
        && Stored(old(zones), zones, NormZone(zone), rec.id, rec.(created := created, updated := now), now)
      ensures (!ok ==> zones == old(zones)) && notified == ok
    {
      if rec.id == [] || rec.rtype !in VALID_TYPES {
        return false, false;
      }
      var key := ZoneForOrg(zones, org, zone);
      if key.None? {
        return false, false;
      }
      var e, created := zones[key.value], now;
      if rec.id in e.records {
        created := e.records[rec.id].created;
      }
      var r := rec.(created := created, updated := now);
      ghost var stamp := created;
      e := e.(records := e.records[rec.id := r]);
      e := e.(zone := e.zone.(updated := now));
      zones := zones[key.value := e];
      assert Stored(old(zones), zones, NormZone(zone), rec.id, rec.(created := stamp, updated := now), now);
      return true, true;
    }

    method DropMirror(org: Str, zone: Str, id: Str, now: int) returns (notified: bool)
      modifies this
      ensures Effect(zones, true, notified) == Apply(old(zones), Op.DropMirror(org, zone, id, now))
      ensures notified <==> Owns(old(zones), org, NormZone(zone)) && id in old(zones)[NormZone(zone)].records
      ensures if notified then Removed(old(zones), zones, NormZone(zone), id, now) else zones == old(zones)
    {
      var key := ZoneForOrg(zones, org, zone);
      if key.None? {
        return false;
      }
      var e := zones[key.value];
      if id in e.records {
        e := Entry(e.zone.(updated := now), e.records - {id});
        zones := zones[key.value := e];
        assert zones[key.value].records != old(zones)[key.value].records;
        return true;
      }
      return false;
    }

    method UpdateRecord(org: Str, zone: Str, id: Str, patch: Patch, now: int) returns (u: Option<Record>, notified: bool)
      modifies this
      ensures Effect(zones, u.Some?, notified) == Apply(old(zones), Op.UpdateRecord(org, zone, id, patch, now))
      ensures u.Some? <==> Patches(old(zones), org, NormZone(zone), id) && (patch.rtype.Some? ==> patch.rtype.value in VALID_TYPES)
      ensures u.Some? ==> IsPatched(old(zones)[NormZone(zone)].records[id], patch, now, u.value)
      ensures u.Some? ==> Stored(old(zones), zones, NormZone(zone), id, u.value, now)
      ensures u.None? && Patches(old(zones), org, NormZone(zone), id) && patch.name.Some? ==>
        OnlyRenamed(old(zones), zones, NormZone(zone), id, patch.name.value)
      ensures u.None? && (Patches(old(zones), org, NormZone(zone), id) ==> patch.name.None?) ==> zones == old(zones)
      ensures notified == u.Some?
    {
      var key := ZoneForOrg(zones, org, zone);
      if key.None? || id !in zones[key.value].records {
        return None, false;
      }
      var e := zones[key.value];
      var r := e.records[id];
      if patch.name.Some? {
        r := r.(name := patch.name.value);
      }
      if patch.rtype.Some? && patch.rtype.value !in VALID_TYPES {
        zones := zones[key.value := e.(records := e.records[id := r])];
        if patch.name.None? { SameRecord(old(zones), key.value, id); }
        return None, false;
      }
      r := r.(rtype := Or(patch.rtype, r.rtype), ttl := Or(patch.ttl, r.ttl), content := Or(patch.content, r.content));
      r := r.(priority := Or(patch.priority, r.priority), proxied := Or(patch.proxied, r.proxied), updated := now);
      zones := zones[key.value := Entry(e.zone.(updated := now), e.records[id := r])];
      return Some(r), true;
    }

    method DeleteRecord(org: Str, zone: Str, id: Str, now: int) returns (ok: bool, notified: bool)
      modifies this
      ensures Effect(zones, ok, notified) == Apply(old(zones), Op.DeleteRecord(org, zone, id, now))
      ensures ok <==> Owns(old(zones), org, NormZone(zone)) && id in old(zones)[NormZone(zone)].records
      ensures if ok then Removed(old(zones), zones, NormZone(zone), id, now) else zones == old(zones)
      ensures notified == ok
    {
      var key := ZoneForOrg(zones, org, zone);
      if key.None? || id !in zones[key.value].records {
        return false, false;
      }
      var e := zones[key.value];
      zones := zones[key.value := Entry(e.zone.(updated := now), e.records - {id})];
      return true, true;
    }

    method BulkSync(org: Str, zone: Str, items: seq<SyncRecord>, id: Str, now: int) returns (ok: bool, notified: bool, created: nat, deleted: nat)
      modifies this
      ensures Effect(zones, ok, notified) == Apply(old(zones), Op.BulkSync(org, zone, items, id, now))
      ensures ok <==> NormZone(zone) !in old(zones) || Owns(old(zones), org, NormZone(zone))
      ensures !ok ==> zones == old(zones)
      ensures ok ==> NormZone(zone) in zones && zones == old(zones)[NormZone(zone) := zones[NormZone(zone)]]
      ensures ok ==> SyncedZone(old(zones), org, NormZone(zone), id, now, zones[NormZone(zone)].zone)
      ensures ok ==> SyncedRecords(items, now, zones[NormZone(zone)].records) && created == |zones[NormZone(zone)].records|
      ensures notified
      ensures ok ==> deleted == if NormZone(zone) in old(zones) then |old(zones)[NormZone(zone)].records| else 0
    {
      var key := NormZone(zone);
      var e := Entry(NewInfo(id, key, org, [], now), map[]);
      if key in zones {
        if zones[key].zone.org != org {
          return false, true, 0, 0;
        }
        e := zones[key];
      }
      deleted := |e.records|;
      var records := SyncItems(items, now);
      zones := zones[key := Entry(e.zone.(updated := now), records)];
      return true, true, |records|, deleted;
    }
  }
}
