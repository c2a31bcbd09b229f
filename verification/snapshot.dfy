/** The durable form of the store: `Export`, `Import` and why one undoes the other. */
module Snapshot {
  import opened Bytes
  import opened TenantStore

  datatype SnapZone = SnapZone(zone: Info, records: seq<Record>)

  // ----- sorted listings -----

  ghost predicate Increasing(ks: seq<Str>) {
    forall i, j :: 0 <= i < j < |ks| ==> Compare(ks[i], ks[j]) < 0
  }

  /** `ks` lists the elements of `keys` in increasing order. */
  ghost predicate Lists(ks: seq<Str>, keys: set<Str>) {
    Increasing(ks) && forall k :: k in keys <==> k in ks
  }

  /** A set has only one increasing listing. */
  lemma {:induction false} ListingUnique(a: seq<Str>, b: seq<Str>, keys: set<Str>)
    requires Lists(a, keys) && Lists(b, keys)
    ensures a == b
    decreases |a|
  {
    if a == [] {
      assert forall k :: k in b ==> k in a;
      assert forall i :: 0 <= i < |b| ==> b[i] in a;
    } else {
      assert a[0] in keys;
      assert b[0] in keys;
      var i :| 0 <= i < |a| && a[i] == b[0];
      var j :| 0 <= j < |b| && b[j] == a[0];
      CompareFlip(a[0], b[0]);
      CompareEqual(a[0], b[0]);
      ListingRest(a, keys);
      ListingRest(b, keys);
      ListingUnique(a[1..], b[1..], keys - {a[0]});
    }
  }

  lemma ListingRest(a: seq<Str>, keys: set<Str>)
    requires Lists(a, keys) && a != []
    ensures Lists(a[1..], keys - {a[0]})
  {
    CompareEqual(a[0], a[0]);
    assert forall i :: 0 < i < |a| ==> Compare(a[0], a[i]) < 0;
    assert forall k :: k in a <==> k == a[0] || k in a[1..];
  }

  function Put(ks: seq<Str>, k: Str): seq<Str> {
    if ks == [] || Compare(k, ks[0]) < 0 then [k] + ks else [ks[0]] + Put(ks[1..], k)
  }

  lemma {:induction false} PutMembers(ks: seq<Str>, k: Str)
    ensures forall x :: x in Put(ks, k) <==> x in ks || x == k
    ensures forall x :: x in ks ==> x in Put(ks, k)
  {
    if ks != [] {
      assert ks == [ks[0]] + ks[1..];
      if Compare(k, ks[0]) >= 0 { PutMembers(ks[1..], k); }
    }
  }

  lemma {:induction false} PutIncreasing(ks: seq<Str>, k: Str)
    requires Increasing(ks) && k !in ks
    ensures Increasing(Put(ks, k))
  {
    if ks != [] {
      if Compare(k, ks[0]) < 0 {
        forall i | 0 < i < |ks| ensures Compare(k, ks[i]) < 0 { CompareTransitive(k, ks[0], ks[i]); }
      } else {
        CompareFlip(k, ks[0]);
        CompareEqual(k, ks[0]);
        PutIncreasing(ks[1..], k);
        PutMembers(ks[1..], k);
        HeadFirst(ks[0], Put(ks[1..], k));
      }
    }
  }

  lemma HeadFirst(h: Str, ks: seq<Str>)
    requires Increasing(ks) && forall x :: x in ks ==> Compare(h, x) < 0
    ensures Increasing([h] + ks)
  {
  }

  /** Collects the keys of a map, in whatever order they come, and sorts them. */
  method SortedKeys(keys: set<Str>) returns (ks: seq<Str>)
    ensures Lists(ks, keys)
  {
    ks := [];
    var rest := keys;
    while rest != {}
      invariant rest <= keys && Lists(ks, keys - rest)
      decreases |rest|
    {
      var k :| k in rest;
      PutMembers(ks, k);
      PutIncreasing(ks, k);
      ks := Put(ks, k);
      rest := rest - {k};
    }
    assert keys - rest == keys;
  }

  // ----- export -----

  function Ids(rs: seq<Record>): (ks: seq<Str>)
    ensures |ks| == |rs| && forall i :: 0 <= i < |rs| ==> ks[i] == rs[i].id
  {
    seq(|rs|, i requires 0 <= i < |rs| => rs[i].id)
  }

  function ZoneNames(snap: seq<SnapZone>): (ks: seq<Str>)
    ensures |ks| == |snap| && forall i :: 0 <= i < |snap| ==> ks[i] == snap[i].zone.name
  {
    seq(|snap|, i requires 0 <= i < |snap| => snap[i].zone.name)
  }

  /** The records of a map, sorted by identifier. */
  ghost predicate IsRecordList(m: map<Str, Record>, rs: seq<Record>) {
    Lists(Ids(rs), m.Keys) && forall i :: 0 <= i < |rs| ==> rs[i].id in m && rs[i] == m[rs[i].id]
  }

  ghost predicate IsZoneExport(s: Zones, z: SnapZone) {
    z.zone.name in s && z.zone == s[z.zone.name].zone && IsRecordList(s[z.zone.name].records, z.records)
  }

  /** `snap` is the export of `s`. */
  ghost predicate IsExport(s: Zones, snap: seq<SnapZone>) {
    Lists(ZoneNames(snap), s.Keys) && forall i :: 0 <= i < |snap| ==> IsZoneExport(s, snap[i])
  }

  lemma RecordListUnique(m: map<Str, Record>, a: seq<Record>, b: seq<Record>)
    requires IsRecordList(m, a) && IsRecordList(m, b)
    ensures a == b
  {
    ListingUnique(Ids(a), Ids(b), m.Keys);
    assert forall i :: 0 <= i < |a| ==> a[i].id == Ids(a)[i] == b[i].id;
  }

  /** Equal stores have the same export, whatever the order the maps are visited in. */
  lemma ExportCanonical(s: Zones, a: seq<SnapZone>, b: seq<SnapZone>)
    requires IsExport(s, a) && IsExport(s, b)
    ensures a == b
  {
    ListingUnique(ZoneNames(a), ZoneNames(b), s.Keys);
    forall i | 0 <= i < |a| ensures a[i] == b[i] {
      assert a[i].zone.name == ZoneNames(a)[i] == b[i].zone.name;
      assert IsZoneExport(s, a[i]) && IsZoneExport(s, b[i]);
      RecordListUnique(s[a[i].zone.name].records, a[i].records, b[i].records);
    }
  }

  method ExportRecords(m: map<Str, Record>) returns (rs: seq<Record>)
    requires RecordsKeyed(m)
    ensures IsRecordList(m, rs)
  {
    var ids := SortedKeys(m.Keys);
    rs := [];
    for i := 0 to |ids|
      invariant |rs| == i && forall j :: 0 <= j < i ==> ids[j] in m && rs[j] == m[ids[j]]
    {
      assert ids[i] in m.Keys;
      rs := rs + [m[ids[i]]];
    }
    assert Ids(rs) == ids;
  }

  method Export(store: Store) returns (snap: seq<SnapZone>)
    requires Keyed(store.zones)
    ensures IsExport(store.zones, snap)
  {
    var s := store.zones;
    var names := SortedKeys(s.Keys);
    snap := [];
    for i := 0 to |names|
      invariant |snap| == i && forall j :: 0 <= j < i ==> snap[j].zone.name == names[j] && IsZoneExport(s, snap[j])
    {
      assert names[i] in s.Keys;
      var e := s[names[i]];
      assert EntryKeyed(names[i], e);
      var recs := ExportRecords(e.records);
      snap := snap + [SnapZone(e.zone, recs)];
    }
    assert ZoneNames(snap) == names;
  }

  // ----- import -----

  function Defaulted(z: Info): Info {
    z.(name := NormZone(z.name), provider := if z.provider == [] then AUTHORITATIVE else z.provider)
  }

  function ImportedRecords(rs: seq<Record>): map<Str, Record> {
    if rs == [] then map[] else ImportedRecords(rs[..|rs| - 1])[rs[|rs| - 1].id := rs[|rs| - 1]]
  }

  function ImportedZone(z: SnapZone): Entry {
    Entry(Defaulted(z.zone), ImportedRecords(z.records))
  }

  function Imported(snap: seq<SnapZone>): Zones {
    if snap == [] then map[]
    else
      var z := snap[|snap| - 1];
      Imported(snap[..|snap| - 1])[NormZone(z.zone.name) := ImportedZone(z)]
  }

  ghost predicate LastRecord(rs: seq<Record>, id: Str, i: int) {
    0 <= i < |rs| && rs[i].id == id && forall j :: i < j < |rs| ==> rs[j].id != id
  }

  /** The map holds, for every identifier in the list, the last record with it. */
  ghost predicate HoldsLast(rs: seq<Record>, m: map<Str, Record>) {
    && (forall id :: id in m <==> exists i :: LastRecord(rs, id, i))
    && (forall id, i :: LastRecord(rs, id, i) ==> id in m && m[id] == rs[i])
  }

  lemma {:induction false} ImportedRecordsLast(rs: seq<Record>, id: Str)
    ensures id in ImportedRecords(rs) <==> exists i :: LastRecord(rs, id, i)
    ensures forall i :: LastRecord(rs, id, i) ==> id in ImportedRecords(rs) && ImportedRecords(rs)[id] == rs[i]
  {
    if rs != [] {
      var n := |rs| - 1;
      ImportedRecordsLast(rs[..n], id);
      if rs[n].id == id {
        assert LastRecord(rs, id, n);
      } else {
        assert forall i :: LastRecord(rs, id, i) <==> LastRecord(rs[..n], id, i);
      }
    }
  }

  ghost predicate LastZone(snap: seq<SnapZone>, k: Str, i: int) {
    0 <= i < |snap| && NormZone(snap[i].zone.name) == k && forall j :: i < j < |snap| ==> NormZone(snap[j].zone.name) != k
  }

  /** The entry is what the snapshot says, under the normalised name and with "authoritative" for a missing provider. */
  ghost predicate IsImportOf(z: SnapZone, k: Str, e: Entry) {
    && e.zone.name == k && e.zone.provider == (if z.zone.provider == [] then AUTHORITATIVE else z.zone.provider)
    && e.zone == z.zone.(name := e.zone.name, provider := e.zone.provider) && HoldsLast(z.records, e.records)
  }

  /** The store holds, for every normalised name in the snapshot, the last zone with it. */
  ghost predicate HoldsSnapshot(snap: seq<SnapZone>, s: Zones) {
    && (forall k :: k in s <==> exists i :: LastZone(snap, k, i))
    && (forall k, i :: LastZone(snap, k, i) ==> k in s && IsImportOf(snap[i], k, s[k]))
  }

  lemma ImportedZoneIs(z: SnapZone, k: Str)
    requires NormZone(z.zone.name) == k
    ensures IsImportOf(z, k, ImportedZone(z))
  {
    forall id ensures (id in ImportedRecords(z.records) <==> exists i :: LastRecord(z.records, id, i))
      && forall i :: LastRecord(z.records, id, i) ==> id in ImportedRecords(z.records) && ImportedRecords(z.records)[id] == z.records[i]
    {
      ImportedRecordsLast(z.records, id);
    }
  }

  lemma LastBefore(snap: seq<SnapZone>, k: Str, i: int)
    requires snap != [] && NormZone(snap[|snap| - 1].zone.name) != k
    ensures LastZone(snap, k, i) <==> LastZone(snap[..|snap| - 1], k, i)
  {
  }

  lemma {:induction false} ImportedHas(snap: seq<SnapZone>, k: Str) returns (i: int)
    requires k in Imported(snap)
    ensures LastZone(snap, k, i) && Imported(snap)[k] == ImportedZone(snap[i])
  {
    var n := |snap| - 1;
    if NormZone(snap[n].zone.name) == k {
      i := n;
    } else {
      i := ImportedHas(snap[..n], k);
      LastBefore(snap, k, i);
    }
  }

  lemma {:induction false} LastIsImported(snap: seq<SnapZone>, k: Str, i: int)
    requires LastZone(snap, k, i)
    ensures k in Imported(snap) && Imported(snap)[k] == ImportedZone(snap[i])
  {
    var n := |snap| - 1;
    if i < n {
      LastBefore(snap, k, i);
      LastIsImported(snap[..n], k, i);
    }
  }

  lemma ImportedHolds(snap: seq<SnapZone>)
    ensures HoldsSnapshot(snap, Imported(snap))
  {
    forall k | k in Imported(snap) ensures exists i :: LastZone(snap, k, i) {
      var i := ImportedHas(snap, k);
    }
    forall k, i | LastZone(snap, k, i) ensures k in Imported(snap) && IsImportOf(snap[i], k, Imported(snap)[k]) {
      LastIsImported(snap, k, i);
      ImportedZoneIs(snap[i], k);
    }
  }

  method ImportRecords(rs: seq<Record>) returns (m: map<Str, Record>)
    ensures m == ImportedRecords(rs)
  {
    m := map[];
    for i := 0 to |rs|
      invariant m == ImportedRecords(rs[..i])
    {
      assert rs[..i + 1][..i] == rs[..i];
      m := m[rs[i].id := rs[i]];
    }
    assert rs[..|rs|] == rs;
  }

  method Import(store: Store, snap: seq<SnapZone>)
    modifies store
    ensures store.zones == Imported(snap) && HoldsSnapshot(snap, store.zones)
  {
    store.zones := map[];
    for i := 0 to |snap|
      invariant store.zones == Imported(snap[..i])
    {
      assert snap[..i + 1][..i] == snap[..i];
      var z := snap[i].zone;
      var key := NormZone(z.name);
      z := z.(name := key);
      if z.provider == [] {
        z := z.(provider := AUTHORITATIVE);
      }
      var records := ImportRecords(snap[i].records);
      store.zones := store.zones[key := Entry(z, records)];
    }
    assert snap[..|snap|] == snap;
    ImportedHolds(snap);
  }

  // ----- the round trip -----

  /** The store as a restart leaves it: an empty provider has become "authoritative". */
  function Normalised(s: Zones): Zones {
    map k | k in s :: NormalisedEntry(s[k])
  }

  function NormalisedEntry(e: Entry): Entry {
    e.(zone := e.zone.(provider := if e.zone.provider == [] then AUTHORITATIVE else e.zone.provider))
  }

  ghost predicate DistinctIds(rs: seq<Record>) {
    forall i, j :: 0 <= i < j < |rs| ==> rs[i].id != rs[j].id
  }

  lemma {:induction false} ImportedRecordsAt(rs: seq<Record>)
    requires DistinctIds(rs)
    ensures forall i :: 0 <= i < |rs| ==> rs[i].id in ImportedRecords(rs) && ImportedRecords(rs)[rs[i].id] == rs[i]
  {
    if rs != [] {
      var n := |rs| - 1;
      ImportedRecordsAt(rs[..n]);
      assert forall i :: 0 <= i < n ==> rs[..n][i] == rs[i];
    }
  }

  lemma {:induction false} ImportedRecordsKeys(rs: seq<Record>)
    ensures forall id :: id in ImportedRecords(rs) ==> id in Ids(rs)
  {
    if rs != [] {
      var n := |rs| - 1;
      ImportedRecordsKeys(rs[..n]);
      assert Ids(rs) == Ids(rs[..n]) + [rs[n].id];
    }
  }

  lemma IncreasingDistinct(ks: seq<Str>, i: nat, j: nat)
    requires Increasing(ks) && i < j < |ks|
    ensures ks[i] != ks[j]
  {
    CompareEqual(ks[i], ks[j]);
  }

  lemma RecordsRoundTrip(m: map<Str, Record>, rs: seq<Record>)
    requires IsRecordList(m, rs)
    ensures ImportedRecords(rs) == m
  {
    forall i, j | 0 <= i < j < |rs| ensures rs[i].id != rs[j].id { IncreasingDistinct(Ids(rs), i, j); }
    ImportedRecordsAt(rs);
    ImportedRecordsKeys(rs);
    forall id | id in m ensures id in ImportedRecords(rs) && ImportedRecords(rs)[id] == m[id] {
      assert id in m.Keys;
      var i :| 0 <= i < |rs| && Ids(rs)[i] == id;
    }
  }

  ghost predicate DistinctZones(snap: seq<SnapZone>) {
    forall i, j :: 0 <= i < j < |snap| ==> snap[i].zone.name != snap[j].zone.name
  }

  lemma {:induction false} ImportedAt(snap: seq<SnapZone>)
    requires DistinctZones(snap) && forall i :: 0 <= i < |snap| ==> NormZone(snap[i].zone.name) == snap[i].zone.name
    ensures forall i :: 0 <= i < |snap| ==> snap[i].zone.name in Imported(snap) && Imported(snap)[snap[i].zone.name] == ImportedZone(snap[i])
    ensures forall k :: k in Imported(snap) ==> k in ZoneNames(snap)
  {
    if snap != [] {
      var n := |snap| - 1;
      ImportedAt(snap[..n]);
      assert forall i :: 0 <= i < n ==> snap[..n][i] == snap[i];
      assert ZoneNames(snap) == ZoneNames(snap[..n]) + [snap[n].zone.name];
    }
  }

  lemma ZoneRoundTrip(s: Zones, z: SnapZone)
    requires Keyed(s) && IsZoneExport(s, z)
    ensures NormZone(z.zone.name) == z.zone.name && ImportedZone(z) == Normalised(s)[z.zone.name]
  {
    assert EntryKeyed(z.zone.name, s[z.zone.name]);
    RecordsRoundTrip(s[z.zone.name].records, z.records);
  }

  /** Importing an export gives the store back, up to the default provider. */
  lemma ImportUndoesExport(s: Zones, snap: seq<SnapZone>)
    requires Keyed(s) && IsExport(s, snap)
    ensures Imported(snap) == Normalised(s)
  {
    ExportImportable(s, snap);
    ImportedAt(snap);
    forall k | k in s ensures k in Imported(snap) && Imported(snap)[k] == Normalised(s)[k] {
      assert k in s.Keys;
      var i :| 0 <= i < |snap| && ZoneNames(snap)[i] == k;
      assert IsZoneExport(s, snap[i]);
      ZoneRoundTrip(s, snap[i]);
    }
    assert forall k :: k in Imported(snap) ==> k in s.Keys;
  }

  lemma ExportImportable(s: Zones, snap: seq<SnapZone>)
    requires Keyed(s) && IsExport(s, snap)
    ensures DistinctZones(snap) && forall i :: 0 <= i < |snap| ==> NormZone(snap[i].zone.name) == snap[i].zone.name
  {
    forall i, j | 0 <= i < j < |snap| ensures snap[i].zone.name != snap[j].zone.name { IncreasingDistinct(ZoneNames(snap), i, j); }
    forall i | 0 <= i < |snap| ensures NormZone(snap[i].zone.name) == snap[i].zone.name {
      assert IsZoneExport(s, snap[i]);
      assert EntryKeyed(snap[i].zone.name, s[snap[i].zone.name]);
    }
  }

  /** A restarted store is keyed as before. */
  lemma NormalisedKeyed(s: Zones)
    requires Keyed(s)
    ensures Keyed(Normalised(s))
  {
    var t := Normalised(s);
    forall k | k in t ensures EntryKeyed(k, t[k]) {
      assert EntryKeyed(k, s[k]);
      assert t[k].records == s[k].records && t[k].zone.name == s[k].zone.name;
    }
  }
}
