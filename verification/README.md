# Verified model of the DNS server's core

This project models, in Dafny, the parts of the DNS server (a CoreDNS fork with the added `hanzodns` plugin) whose
correctness is not obvious from reading one function, and proves what they promise:

- **The authoritative zone engine** (`plugin/file`): the ordered tree, building a zone by `Insert`, the label loop of
  `Zone.Lookup` with its wildcard and denial tail, signed denial, alias chasing through the server, outgoing and
  incoming transfers, and the timed loop of a secondary.
- **The tenant store** (`plugin/hanzodns`): the mutators of `Store`, the snapshot, and durability under concurrent
  calls and crashes.
- **The cache** (`plugin/cache`): what is stored, what is replayed, with which TTL, and the prefetch flag.
- **Error consolidation** (`plugin/errors`): the lock-free counter, timer and stop-flag protocol.
- **Answer transformations**: weighted and random reordering (`plugin/loadbalance`), name rewriting and its reverter
  (`plugin/rewrite`).
- **The listener overlap check** (`core/dnsserver`).

Code that updates state step by step is modelled by classes and methods with loops (`Zone`, `Store`, `Cache`,
`ZoneOverlap`, the label loop, the closest-encloser loop, `TransferIn`, `filterRRSlice`, the shuffles, the reverter);
code that runs concurrently is modelled as a state machine over its atomic steps, and the theorems are about every run.

## Conventions

- Names are sequences of lower-case labels in the zone engine and lower-cased octet strings elsewhere. Case folding is
  ASCII. Escapes in names are not modelled, and a label of a name is not empty.
- Record lists are immutable sequences. Iteration over a Go map is an arbitrary order.
- Time, random numbers, generated identifiers, network replies, regular expressions and the hash function are inputs.
- The label functions of the `miekg/dns` library are not part of this model. `PrevLabel` is taken to leave the closing
  dot on a label and to give the root one label, `.`; `IsDomainName` is taken to refuse the empty name.
- At a root apex the code writes the wildcard of a signed NXDOMAIN as `*..`, which is not a name. What the tree finds before
  it is an input there, and what such an answer proves is stated for zones below the root.

## Where the code does not do what one would expect

Each of these is stated by a lemma with a concrete input or run, or by an if-and-only-if that says exactly when the
expected property holds.

- The tree order is not the canonical order of section 6.1 of RFC 4034, although `less` says so: labels are compared
  with their closing dot, so `a-b` sorts before `a` (`Names.TreeOrderIsCanonical`), and `*` and `-x` sort before the
  root (`Names.RootFirstIff`). As a consequence a signed NXDOMAIN can lack the NSEC that covers the name
  (`DenialFailures.HyphenIsNotCovered`). It also lacks it when the node before the name is glue, which has no NSEC
  (`DenialFailures.GlueIsNotCovered`). `Denial.NxdomainIsProvedIff` says exactly when it is a full proof, and
  `Denial.OneNsecProvesIff` the same for wildcard answers and empty non-terminals.
- When a wildcard does not have the type, only its own NSEC is sent, which need not cover the query name
  (`DenialFailures.WildcardNoDataIsNotCovered`, `Denial.NodeAloneProvesIff`).
- The tree holds no empty non-terminals, so a wildcard that an empty non-terminal should block is taken
  (`Resolution.BlockedWildcardIsTaken`, `Resolution.WalkResolves`). A zone that holds nothing but its SOA and NS records
  denies its own apex (`Resolution.BareApexIsDenied`). Below a root origin a top-level `*` is not seen and a
  single-label encloser is missed (`DenialFailures.RootEncloserIsMissed`, `Denial.EncloserIsLongest`).
- `TransferIn` fills one zone from all primaries in turn, so records of a failed attempt stay in it
  (`Transfer.LeftoverGoesLive`, `Transfer.LeftoversHarmlessIff`).
- `shouldTransfer` reports no error when the last primary answers with a failure code (`Secondary.ShouldTransfer`), and
  a zone that has expired stays expired when its primaries confirm its serial
  (`Secondary.ConfirmedZoneStaysExpired`, `Secondary.ExpiredIff`).
- `UpdateRecord` renames a record and then refuses a bad type (`TenantStore.RenameOutlivesFailure`,
  `TenantStore.FailureIsCleanIff`).
- A reply of a cacheable class without a question makes `key` index an empty slice, so the goroutine panics
  (`Cache.Cache.WriteMsg`).
- A timer that fires before it has been stored can make `stop` miss a later one (`Errors.EarlyFireOutlivesStop`,
  `Errors.LeftBehindIff`), and the 32-bit counter loses its count when it wraps (`Errors.WrapIsReached`,
  `Errors.BooksBalanceIff`).
- When a question for the root is rewritten, the subdomains of the new name do not come back from the reverter, although
  the name itself does (`Rewrite.RootIsNotUndoneBelow`, `Rewrite.RulesAreUndone`).
- Acceptance of filtered server blocks depends on their order (`Overlap.OrderMatters`, `Overlap.OrderIrrelevantIff`).

## Model

| member | source | states |
|---|---|---|
| `Names.Less` | plugin/file/tree/less.go:18-42 | the label loop computes the tree order, a total order on names, the root included |
| `Names.TreeOrderIsCanonical` | plugin/file/tree/less.go:10-42 | two names are in canonical order (section 6.1 of RFC 4034) if and only if they are not inverted: the labels in which they first differ are a prefix pair that continues with an octet below the dot, or one name is the root and the other ends in a label that starts below the dot |
| `Names.TreeTransitive` | plugin/file/tree/less.go:18-42 | the tree order is transitive |
| `Names.TreeConvex` | plugin/file/tree/less.go:18-42 | whatever sorts between a name and a descendant is itself a descendant |
| `Names.TreeAncestorFirst` | plugin/file/tree/less.go:18-42 | an ancestor other than the root never sorts after its descendants |
| `Names.RootFirstIff` | plugin/file/tree/less.go:18-42 | the root does not sort after another name if and only if the rightmost label of that name does not start below the dot |
| `ZoneTree.SearchIsLookup` | plugin/file/tree/tree.go:141-167 | searching the tree is looking the name up in the map it stands for |
| `ZoneTree.FloorIsPredecessor` | plugin/file/tree/tree.go:370-397 | `Prev` gives the greatest stored name not after the query name, and nothing only when there is none |
| `ZoneTree.CeilIsSuccessor` | plugin/file/tree/tree.go:400-426 | `Next` gives the least stored name not before the query name, and nothing only when there is none |
| `ZoneTree.InsertAdds` | plugin/file/tree/tree.go:170-217 | insertion keeps the order and adds exactly the one record to its owner and type |
| `ZoneTree.InsertBalances` | plugin/file/tree/tree.go:170-217 | insertion keeps the left-leaning red-black shape |
| `ZoneTree.DepthIsLogarithmic` | plugin/file/tree/tree.go:170-217 | the depth of a balanced tree is logarithmic in the number of its names |
| `Zones.Zone.constructor` | plugin/file/zone.go:47-55 | a new zone is empty, valid and not expired |
| `Zones.Zone.Insert` | plugin/file/zone.go:83-131 | a record goes to its apex list or into the tree, or is refused and nothing changes; the tree stays ordered and balanced; `LoadedZone` says which record goes where |
| `Zones.Zone.SetData` | plugin/file/zone.go:157-163 | apex and tree are replaced together and the zone is no longer expired |
| `Zones.InsertAllSucceeds` | plugin/file/zone.go:83-131 | a list of records is refused if and only if it holds a record that has no place |
| `Zones.InsertAllCollects` | plugin/file/zone.go:83-131 | a list of records adds to every name and type exactly the records that belong there, in order |
| `Zones.InsertAllApex` | plugin/file/zone.go:83-131 | the last SOA is kept, the other apex lists grow by what belongs there, in order |
| `Zones.InsertAllBuilt` | plugin/file/zone.go:83-131 | every zone built by insertion keeps each record under its own name and type |
| `Zones.LoadedZone` | plugin/file/zone.go:83-131 | a zone loaded with a list of records holds, in order and by owner, type and covered type alone: the last SOA, the NS records of the apex, the signatures over SOA, the signatures of the apex over NS, and under its owner and type every other record; loading fails if and only if there is an NSEC3 or NSEC3PARAM record |
| `Zones.SameRecordsSameContents` | plugin/file/zone.go:83-131 | two built zones with the same records everywhere have the same contents, whatever the shape of their trees |
| `Records.SignaturesOnly` | plugin/file/rrutil/util.go:7-18 | exactly the signatures over the type, in their order |
| `Lookup.NameFromRight` | plugin/file/zone.go:188-210 | gives the origin and `i` more labels of the name and says when the name has fewer; the root counts as one label |
| `Lookup.LookAt` | plugin/file/lookup.go:88-169 | one turn of the loop: is the name stored, is there a wildcard beside a missing one, does a DNAME or a cut end the walk |
| `Lookup.Descend` | plugin/file/lookup.go:86-169 | the loop finds the first DNAME or cut on the path, or else the deepest wildcard seen beside a missing name |
| `Lookup.SuccessorDecides` | plugin/file/lookup.go:244-252 | one look at the successor decides whether any stored name lies at or below the query name; at the root it decides only whether one sorts after it |
| `Lookup.Walk` | plugin/file/lookup.go:86-252 | the whole decision, for every ordered tree |
| `Resolution.BuiltApexApart` | plugin/file/zone.go:83-131 | every zone that `Insert` builds keeps its apex NS records out of the tree |
| `Resolution.ResolvesUnique` | plugin/file/lookup.go:86-252 | the reference resolution (section 4.3.2 of RFC 1034, section 3.3 of RFC 4592), which is defined on the stored records without the walk, has at most one outcome |
| `Resolution.WildSeenIsDeepest` | plugin/file/lookup.go:94-109 | the wildcard kept by the loop is the deepest one on offer at the depths looked at |
| `Resolution.WalkResolves` | plugin/file/lookup.go:86-252 | the decision is the reference resolution if and only if the zone is faithful for the query, a condition on stored names only |
| `Resolution.ClosedZoneResolves` | plugin/file/lookup.go:86-252 | in an ancestor-closed zone every query strictly below the apex gets the reference resolution (for a root origin, if no top-level wildcard is stored) |
| `Resolution.BlockedWildcardIsTaken` | plugin/file/lookup.go:94-109 | with `*.e` and `a.b.e` loaded by `Insert`, `x.b.e` is answered from `*.e`, which the empty non-terminal `b.e` should block |
| `Resolution.BareApexIsDenied` | plugin/file/lookup.go:244-252 | a zone with only SOA and NS records denies its apex |
| `Denial.ClosestEncloser` | plugin/file/closest.go:10-23 | the loop gives the longest stored suffix of two labels or more, or falls back to the apex |
| `Denial.EncloserIsLongest` | plugin/file/closest.go:10-23 | the result is the longest stored suffix if and only if that is not a single label below a root origin |
| `Denial.TypeFromElemIs` | plugin/file/lookup.go:286-295 | the records of the type and, if asked for, exactly the signatures over that type |
| `DenialFailures.RootEncloserIsMissed` | plugin/file/closest.go:10-23 | with the root and any single label loaded under a root origin, the encloser found for a name right below that label is the root |
| `Nsec.CoversIffPredecessor` | plugin/file/lookup.go:254-283 | in a signed zone, where names below a cut have no NSEC, what a node holds proves a missing name absent if and only if the node is the name's canonical predecessor in the chain |
| `Nsec.PrevCovers` | plugin/file/lookup.go:254-283 | below a root there always is a predecessor in the tree, and what it holds proves the missing name absent if and only if it is in the chain and no name of the chain is misplaced around the missing one |
| `Nsec.PrevCoversUninverted` | plugin/file/lookup.go:254-283 | when the tree orders no two of the names differently from RFC 4034, it does so if and only if it is in the chain |
| `Denial.Deny` | plugin/file/lookup.go:254-283 | the authority section, exactly: the SOA, the NSEC and its signatures before the query name and, on NXDOMAIN, those before the wildcard at the closest stored encloser if that is another node |
| `Denial.NxdomainIsProvedIff` | plugin/file/lookup.go:254-283 | when the walk decides NXDOMAIN in a signed zone, glue or not, that section covers the query name and the wildcard at the longest stored suffix, as section 3.1.3.2 of RFC 4035 asks, if and only if the canonical predecessors of both in the chain are among the two nodes that the tree offers |
| `Denial.OrderlyIsAtHand` | plugin/file/lookup.go:254-283 | so it is a full proof whenever the nodes before both names are in the chain and the tree orders no names around them differently from RFC 4034 |
| `Denial.OneNsecProvesIff` | plugin/file/lookup.go:229-236 | the one NSEC of a signed wildcard answer or empty non-terminal covers the query name if and only if the node before it is in the chain and no name of the chain is misplaced around it |
| `Denial.NodeAloneProvesIff` | plugin/file/lookup.go:219-227 | for a type that the wildcard does not have, the section covers the query name, as section 3.1.3.4 of RFC 4035 asks, if and only if the wildcard is its canonical predecessor |
| `SignedLookup.LookupSigned` | plugin/file/lookup.go:86-283 | the walk and its authority section together, for every tree, with and without DO: the section is known exactly for every outcome (SOA for denials and missing types, NS for answers, the NS and, with DO, the DS records of the cut and the signatures over them for referrals, with the NSEC records that each denial needs) and, but for referrals, starts with the SOA or NS records of the apex; in a signed zone it proves what it has to exactly under the conditions above |
| `DenialFailures.HyphenIsNotCovered` | plugin/file/lookup.go:254-283 | with `e` and `a.e` signed and loaded, NXDOMAIN is decided for `a-b.e` and nothing in its authority section covers it |
| `DenialFailures.GlueIsNotCovered` | plugin/file/lookup.go:254-283 | with a signed zone loaded that delegates `s.e` to `n.s.e`, NXDOMAIN is decided for `t.e` and nothing in its authority section covers it |
| `DenialFailures.WildcardNoDataIsNotCovered` | plugin/file/lookup.go:219-227 | with `e`, `*.e` and `a.e` signed and loaded, `*.e` stands in for `b.e`, has no address, and its NSEC does not cover `b.e` |
| `Chase.FollowsAppend` | plugin/file/lookup.go:314-372 | chains of aliases compose, and their links add up |
| `Chase.BuiltZoneValidIff` | plugin/file/zone.go:83-131 | every zone that `Insert` builds can be looked up, and is valid if and only if its SOA is the origin's and no node has two aliases |
| `Chase.SynthesizeSubstitutes` | plugin/file/dname.go:9-44 | below the owner of a DNAME, and only there, an alias with the DNAME's TTL replaces the owner by the target (section 2.2 of RFC 6672) |
| `Chase.SigsForIs` | plugin/file/lookup.go:318-322 | signatures are added only with DO, and then exactly those over the type |
| `Chase.TrailFrom` | plugin/file/lookup.go:324-372 | the cases of a trail: a target that is not stored leaves the zone, so does every target of an NS question and the apex for SOA; another one ends it with its data or leads on through its aliases; after nine it ends |
| `Chase.FollowAliases` | plugin/file/lookup.go:325-358 | at most nine more nodes are followed, the first alias of each, all aliases with their signatures appended; in valid zones the aliases form a path from the query name, and in a zone that does not change they are exactly the zone's trail of aliases |
| `Chase.ExternalLookup` | plugin/file/lookup.go:314-372 | terminates for every content of the zones, cycles and several aliases at a node included, whatever generation each read sees; the answer starts with the aliases and their signatures, and in an unchanging zone it is the whole trail and then what the server has for a target outside; if no node has two aliases it is a chain from the query name with at most ten links for this level and each level left |
| `Chase.DoLookup` | plugin/file/lookup.go:374-392 | what the upstream lookup gives: a failure when the server is not running, nothing without a reply, or the records of the reply with its code: NXDOMAIN, failure, success, and no data for a success without records |
| `Chase.Serve` | plugin/file/file.go:39-129 | the zone with the longest matching origin answers; transfers are refused, a zone found expired fails, an empty answer falls through where configured, and else the reply is what a lookup in some generation of that zone gives, with its code; whatever zones the server holds the call ends, and from valid zones the answer is a chain from its own query name |
| `Chase.AnswerRedirect` | plugin/file/lookup.go:112-143 | the DNAME, its signatures, then the alias made from it, alone if it was asked for, else with whatever it leads to |
| `Chase.AnswerNode` | plugin/file/lookup.go:172-200 | the aliases and their trail, else the records and their signatures, or no data |
| `Chase.AnswerWildcard` | plugin/file/lookup.go:206-242 | the same with the owner replaced by the query name |
| `Chase.AnswerApex` | plugin/file/lookup.go:46-55 | in a zone loaded with `rs`, SOA is answered by the last SOA of `rs` and NS by its NS records at the origin, in order, with DO followed by exactly the signatures over that type |
| `Chase.AnswerWalk` | plugin/file/lookup.go:86-283 | the answer and the result for each decision of the walk |
| `Chase.LookupAnswer` | plugin/file/lookup.go:33-284 | ends for every server; without a SOA, and at the ninth re-entry, it fails; SOA and NS at the apex of a loaded zone are answered by exactly its last SOA or its NS records in order, with DO followed by the signatures over that type; every other answer and result is what the decision of the walk calls for, aliases pursued; from valid zones the answer is a chain with a bounded number of links |
| `Transfer.StreamIsMessages` | plugin/file/xfr.go:21-45 | the SOA alone when the receiver has that serial, else apex, tree and the SOA again |
| `Transfer.TransferRebuilds` | plugin/file/xfr.go:21-45 | inserting a transferred stream into a fresh zone rebuilds the same apex and the same records everywhere |
| `Transfer.RunKeepsInvariant` | plugin/file/xfr.go:21-45 | however zones are replaced while transfers run, each receiver holds what a prefix of one generation's messages builds |
| `Transfer.CompleteTransferIsOneGeneration` | plugin/file/xfr.go:21-45 | a complete stream comes from one generation and opens and closes with its SOA |
| `Transfer.InsertRecords` | plugin/file/secondary.go:35-48 | the records of one primary are inserted up to the first refused one |
| `Transfer.TryPrimary` | plugin/file/secondary.go:27-53 | one primary's records join what the failed attempts left behind; the attempt succeeds if and only if all of them came and none was refused |
| `Transfer.TransferIn` | plugin/file/secondary.go:13-66 | succeeds if and only if some attempt does (or there is none), and then installs what the failed attempts left behind followed by the first complete one; else the zone is unchanged |
| `Transfer.LeftoversHarmlessIff` | plugin/file/secondary.go:20-56 | the installed zone is the one that was sent if and only if the failed attempts left at most SOA records and the complete one brought its own |
| `Transfer.LeftoverGoesLive` | plugin/file/secondary.go:20-56 | the first primary breaks off after its SOA and one address, the second sends a complete zone: what is installed is not the zone that was sent |
| `Secondary.LessIsRfcLess` | plugin/file/secondary.go:105-110 | total, asymmetric, equal to section 3.2 of RFC 1982 wherever that defines an order, and below every permitted increment |
| `Secondary.FindSerial` | plugin/file/secondary.go:87-92 | the serial of the first SOA of an answer, none if there is no SOA |
| `Secondary.ShouldTransfer` | plugin/file/secondary.go:70-102 | the first primary that gives a SOA decides; without one an error is reported exactly when the last exchange failed |
| `Secondary.RunKeepsInvariant` | plugin/file/secondary.go:116-203 | in every timed run the retry flag says that the latest check or transfer failed, and no expire tick is older than the expire interval since the last success |
| `Secondary.ExpiryIsJustified` | plugin/file/secondary.go:116-203 | the zone expires only after a failure and a full expire interval, of the SOA in force at the last success, since that success, and becomes live only when data are set |
| `Secondary.RunKeepsSchedule` | plugin/file/secondary.go:129-203 | in every timed run each ticker is due at whole multiples of its own timer, refresh, retry or expire, of the SOA in force at the last success, after that success |
| `Secondary.ChecksOnSchedule` | plugin/file/secondary.go:143-197 | a check begins exactly on a refresh tick or, after a failure, on a retry tick, and not before that timer has passed since the last success |
| `Secondary.ExpiredIff` | plugin/file/secondary.go:116-203 | at every moment of every timed run the zone is expired if and only if it went down at some earlier moment, after a failure and a full expire interval, and no data have been set since |
| `Secondary.ConfirmedZoneStaysExpired` | plugin/file/secondary.go:156-168 | a reachable state in which the primaries have just confirmed the serial and the zone is expired |
| `TenantStore.NormZoneIdempotent` | plugin/hanzodns/store.go:103-109 | normalising a zone name twice is normalising it once |
| `TenantStore.NormZoneNormal` | plugin/hanzodns/store.go:103-109 | the result has no capital, no outer white space and ends in a dot |
| `TenantStore.NormZoneKeepsNormal` | plugin/hanzodns/store.go:103-109 | a name of that form is kept as it is |
| `TenantStore.NormZoneIgnoresCase` | plugin/hanzodns/store.go:103-109 | names that differ in case only have the same normal form |
| `TenantStore.NormZoneIgnoresSpaceAndDot` | plugin/hanzodns/store.go:103-109 | neither surrounding white space nor a missing closing dot changes the normal form |
| `TenantStore.SyncKeepsLast` | plugin/hanzodns/store_sync.go:74-98 | a bulk sync keeps, for every identifier, exactly the last valid item that claims it |
| `TenantStore.SyncRecordsKeyed` | plugin/hanzodns/store_sync.go:74-98 | the synced records are keyed by their identifiers and have valid types |
| `TenantStore.SyncItems` | plugin/hanzodns/store_sync.go:74-98 | the loop: every stored record has the fields of the last valid item with its identifier, a default TTL of 300 and the time of the call, and every valid item has its record |
| `TenantStore.ApplyTouches` | plugin/hanzodns/store.go:116-454 | a call touches the named zone and nothing else, and only when that zone is free or the caller's |
| `TenantStore.ApplyKeepsKeyed` | plugin/hanzodns/store.go:116-454 | zone keys are normalised names, record keys are identifiers and all types are valid, after every call |
| `TenantStore.ApplyIsolates` | plugin/hanzodns/store.go:116-454 | a call for one organisation leaves every other one's zones and records as they are, and no zone changes hands |
| `TenantStore.GateSeesOwnZones` | plugin/hanzodns/store.go:116-122 | what an organisation can reach depends on its own zones only |
| `TenantStore.TraceKeepsKeyed` | plugin/hanzodns/store.go:116-454 | the keying holds over every trace of calls |
| `TenantStore.TraceIsolates` | plugin/hanzodns/store.go:116-454 | over every trace of the others' calls an organisation's zones stay exactly as they were |
| `TenantStore.FailureIsCleanIff` | plugin/hanzodns/store.go:401-409 | a failed call changes nothing, and a change is announced, if and only if the call is not an update that renames and then fails on its type |
| `TenantStore.RenameOutlivesFailure` | plugin/hanzodns/store.go:401-409 | a store reached by two calls and an update that fails, is not announced and has renamed the record |
| `TenantStore.Store.constructor` | plugin/hanzodns/store.go:87-91 | a new store is empty |
| `TenantStore.Store.CreateZone` | plugin/hanzodns/store.go:159-186 | fails if and only if the name is taken, by whichever organisation; else exactly the new empty zone is added, with the caller, the provider, the status and name servers of a new zone, announced and returned |
| `TenantStore.Store.DeleteZone` | plugin/hanzodns/store.go:206-224 | succeeds if and only if the zone is the caller's, and then removes exactly that zone and is announced; else nothing changes |
| `TenantStore.Store.CreateRecord` | plugin/hanzodns/store.go:265-305 | fails if and only if the type is bad or the zone not the caller's; else exactly that record is stored, with its fields and times, announced and returned |
| `TenantStore.Store.PutMirror` | plugin/hanzodns/store.go:312-354 | an upsert of exactly one record that keeps the creation time of the one it replaces |
| `TenantStore.Store.DropMirror` | plugin/hanzodns/store.go:358-376 | afterwards the record is gone; absence is not an error, and a call is announced if and only if it changed something |
| `TenantStore.Store.UpdateRecord` | plugin/hanzodns/store.go:380-428 | the fields given in the patch replace the old ones and all others stay; a bad type fails after the name has been replaced; announced and returned on success |
| `TenantStore.Store.DeleteRecord` | plugin/hanzodns/store.go:431-454 | succeeds if and only if the caller's zone has the record, and removes exactly that |
| `TenantStore.Store.BulkSync` | plugin/hanzodns/store_sync.go:41-108 | the zone, created if it is missing, has exactly the records of the items afterwards, the counts are right, and a foreign zone is refused and left alone but announced |
| `Snapshot.SortedKeys` | plugin/hanzodns/store_snapshot.go:32-36 | from any iteration order the keys come out as their increasing listing |
| `Snapshot.Export` | plugin/hanzodns/store_snapshot.go:28-49 | the snapshot lists all zones by name and all their records by identifier |
| `Snapshot.ExportCanonical` | plugin/hanzodns/store_snapshot.go:26-49 | equal stores have the same export, whatever the iteration order |
| `Snapshot.Import` | plugin/hanzodns/store_snapshot.go:53-71 | the store holds exactly the last entry for each normalised name, with that name, an empty provider replaced by authoritative, and under each identifier its last record |
| `Snapshot.ImportedHolds` | plugin/hanzodns/store_snapshot.go:53-71 | the same for the function that the round trip is about |
| `Snapshot.ImportUndoesExport` | plugin/hanzodns/store_snapshot.go:28-71 | importing an export gives the store back, up to an empty provider becoming authoritative |
| `Snapshot.NormalisedKeyed` | plugin/hanzodns/store_snapshot.go:53-71 | a reloaded store is keyed as before |
| `Durability.CommitKeeps` | plugin/hanzodns/store.go:96-100 | a change whose call returns success without saving does not occur |
| `Durability.CrashKeeps` | plugin/hanzodns/store_snapshot.go:103-117 | a crash at any step, followed by a load, leaves the store in the state the file holds |
| `Durability.RunKeepsInvariant` | plugin/hanzodns/store_snapshot.go:121-139 | under every interleaving of calls, saves and crashes the mutex, the temporary file and the state file stay consistent |
| `Durability.StateFileIsDurable` | plugin/hanzodns/store_snapshot.go:121-139 | at every moment the state file is the export of the store at some earlier moment of the run, a restart loads that state, and every change whose call has returned success is among those that made it |
| `Durability.VersionNeverGoesBack` | plugin/hanzodns/store_snapshot.go:121-139 | the state file only ever moves forward, over any number of crashes, and no acknowledged change is lost |
| `Cache.Typify` | plugin/pkg/response/typify.go:57-125 | the class of a reply fixes its response code |
| `Cache.TypifyMeans` | plugin/pkg/response/typify.go:57-125 | for ordinary replies each class if and only if what the reply says: code, answer, SOA and NS in the authority section |
| `Cache.FilterRRSlice` | plugin/cache/dnssec.go:8-30 | all records but OPT, in order, with one TTL |
| `Cache.FilterTwice` | plugin/cache/dnssec.go:8-30 | filtering again only replaces the TTL |
| `Cache.FilteredOneByOne` | plugin/cache/dnssec.go:8-30 | record by record an OPT vanishes and any other record keeps its place and takes the new TTL |
| `Cache.ComputeTtl` | plugin/cache/cache.go:122-125 | the TTL itself when it lies between its bounds, else the bound it passes |
| `Cache.NewItem` | plugin/cache/item.go:39-68 | the item holds the reply's code and records without OPT, and its lifetime in whole seconds |
| `Cache.Cache.Set` | plugin/cache/cache.go:265-304 | positive classes go to the positive store, negative ones to the negative store, a prefetched answer removes a denial, nothing else changes |
| `Cache.Cache.WriteMsg` | plugin/cache/cache.go:217-263 | from the fields of the reply: NXDOMAIN and no data live for the reply's TTL clamped to the negative bounds, success and delegation to the positive ones, failures for exactly the failure TTL; the stores hold an item with that lifetime if the reply may be kept and are unchanged otherwise; the reply is handed on with that TTL, to nobody if a prefetch asked; a cacheable reply without a question panics and stores nothing |
| `Cache.ReplyIsKept` | plugin/cache/cache.go:217-304 | the same for the function that the runs below are about |
| `Cache.GetIfNotStale` | plugin/cache/handler.go:188-219 | finds something if and only if a servable match exists, a denial first, but a failure only when no servable answer exists |
| `Cache.ToMsg` | plugin/cache/item.go:77-100 | the reply carries the item's code and its records with the remaining TTL, and AD only for those who asked |
| `Cache.ShiftedTtlIsZero` | plugin/cache/handler.go:64-65 | moving the clock back by a negative TTL makes the TTL exactly 0 |
| `Cache.ServeHit` | plugin/cache/handler.go:43-89 | one TTL for all records: what is left when live, 0 when stale, the original under keepttl, and never more than the original |
| `Cache.ServableIff` | plugin/cache/handler.go:192-216 | an item is served if and only if name and type match and its lifetime, extended by the whole seconds of the stale window, is not over; it is live exactly before its lifetime is |
| `Cache.FreshReplyIsFound` | plugin/cache/handler.go:188-219 | a kept reply is found by everyone who asks the same question before it has expired, unless the other store goes first |
| `Cache.EveryItemWasMade` | plugin/cache/cache.go:217-304 | over every run with any evictions each entry was made by an earlier reply of the store's own classes |
| `Cache.HitReplaysReply` | plugin/cache/handler.go:188-219 | every hit replays code and records of an earlier reply, not truncated, to the same name and type, with a collision-free hash also to the same DO and CD bits |
| `Cache.FailureNeverHidesAnswer` | plugin/cache/handler.go:192-208 | SERVFAIL is never returned while a servable positive match exists |
| `Prefetch.OnePrefetchPerItem` | plugin/cache/handler.go:104-113 | in every run each item has exactly one prefetch in flight if its flag is set and none otherwise |
| `Errors.EveryErrorCountedOnce` | plugin/errors/errors.go:48-91 | in every interleaving swapped counts plus current count plus 2^32 for every wrap equal the errors added; until the first wrap the count is positive exactly when there is a flusher, and there is never a second one |
| `Errors.BooksBalanceIff` | plugin/errors/errors.go:66-68 | swapped counts plus current count equal the errors added if and only if no addition has wrapped the counter |
| `Errors.QuietMeansFlushedIff` | plugin/errors/errors.go:48-91 | when everybody is through, every error has been swapped out if and only if the counter has never wrapped |
| `Errors.WrapIsReached` | plugin/errors/errors.go:66-68 | a run in which 2^32 errors are added, none is in the books and a timer runs behind a zero counter |
| `Errors.LeftBehindIff` | plugin/errors/errors.go:62-91 | when the stop flag is up and all goroutines are through, a timer still runs if and only if another timer was stored over it while it ran and nobody has ended it since |
| `Errors.OverwriterIsDead` | plugin/errors/errors.go:62-91 | without a wrap the timer stored over it had expired before it was stored |
| `Errors.StopFlushesEverything` | plugin/errors/errors.go:62-91 | so without a wrap and an early firing `stop` leaves no timer and no unflushed error |
| `Errors.EarlyFireOutlivesStop` | plugin/errors/errors.go:62-91 | a run in which an early firing makes `stop` leave a timer behind |
| `LoadBalance.ParseWeights` | plugin/loadbalance/weighted.go:272-329 | fails if and only if some line is bad, else gives each domain its weights in order, all in 1..255 |
| `LoadBalance.FindWeight` | plugin/loadbalance/weighted.go:183-189 | the first weight given for the address, else 1 |
| `LoadBalance.WeighAddresses` | plugin/loadbalance/weighted.go:165-191 | the weight of every address and their sum |
| `LoadBalance.SumPermutation` | plugin/loadbalance/weighted.go:193-204 | sorting does not change the sum |
| `LoadBalance.TopAddressIndex` | plugin/loadbalance/weighted.go:161-209 | every draw selects exactly one address, the one whose share it falls into, and that is the result; the error branch is dead |
| `LoadBalance.DrawsAreFair` | plugin/loadbalance/weighted.go:193-204 | exactly as many draws select an address as its weight says, however equal weights are sorted |
| `LoadBalance.SomethingToDraw` | plugin/loadbalance/weighted.go:190-197 | with parsed weights the sum is at least the number of addresses |
| `LoadBalance.SetTopRecord` | plugin/loadbalance/weighted.go:146-158 | the selected address trades places with the first one |
| `LoadBalance.WeightedRoundRobin` | plugin/loadbalance/weighted.go:114-143 | a permutation: groups in order, the selected address in front of its group; unchanged without addresses |
| `LoadBalance.Partition` | plugin/loadbalance/loadbalance.go:38-54 | aliases, A and AAAA, MX, and all others, each group in order |
| `LoadBalance.KindsAreTypes` | plugin/loadbalance/loadbalance.go:38-54 | which record types make up the four groups |
| `LoadBalance.RoundRobinShuffle` | plugin/loadbalance/loadbalance.go:65-81 | the in-place shuffle for given random numbers |
| `LoadBalance.ShuffledPermutes` | plugin/loadbalance/loadbalance.go:65-81 | a shuffle is a permutation |
| `LoadBalance.RoundRobin` | plugin/loadbalance/loadbalance.go:38-63 | a permutation: aliases and other records in order, then the addresses and the mail exchangers, each shuffled |
| `LoadBalance.AnyOrderPossible` | plugin/loadbalance/loadbalance.go:65-81 | every order of the records can come out, for up to 2^16 records with 16-bit random numbers |
| `Rewrite.ServeRules` | plugin/rewrite/rewrite.go:47-73 | the rule loop: rules fire in order up to a stop rule, an invalid name restores the question, response rules are collected per firing |
| `Rewrite.FirstToFire` | plugin/rewrite/rewrite.go:47-73 | the first rule that fires decides: an invalid name ends everything, a stop rule ends the rewriting, after any other rule the rest goes on with the new name; if none fires the name stays |
| `Rewrite.FireMakes` | plugin/rewrite/name.go:189-298 | what each kind of rule fires on, and that an exact, prefix or suffix rule replaces the part it names and keeps the rest |
| `Rewrite.FirstReplaced` | plugin/rewrite/name.go:264-269 | a substring rule replaces the first match, behind a piece in which none starts, and then goes on behind it |
| `Rewrite.ExpandGroups` | plugin/rewrite/name.go:287-297 | the loop that puts the submatches of a regular expression into the replacement |
| `Rewrite.FireLower` | plugin/rewrite/name.go:300-358 | no rule, regular expressions included, brings a capital into a lower-cased name |
| `Rewrite.RewrittenChain` | plugin/rewrite/name.go:158-298 | the rules that fire form a chain from the lower-cased original to the final name, each starting from what the one before has made |
| `Rewrite.RewriteResourceRecord` | plugin/rewrite/reverter.go:92-97 | the response rules are applied from the last to the first |
| `Rewrite.RewriteSection` | plugin/rewrite/reverter.go:78-88 | every record of a section is reverted in place |
| `Rewrite.WriteMsg` | plugin/rewrite/reverter.go:71-90 | the question is restored if asked for and all sections are reverted |
| `Rewrite.StageUndoneBelowIff` | plugin/rewrite/name.go:65-92 | one firing is undone for subdomains if and only if it moves neither to nor from the root |
| `Rewrite.SubdomainsUndoneIff` | plugin/rewrite/reverter.go:71-97 | for any number of firings, through the root or not, the subdomains of a final name other than the root come back if and only if the question was not the root |
| `Rewrite.RulesAreUndone` | plugin/rewrite/name.go:158-298 | for every list of rules, every question and whichever rules fire, the reverter maps the final name back to the lower-cased original, in names and values; and the subdomains of a final name other than the root too, if and only if the question was not the root |
| `Rewrite.OffRootRulesAreUndoneIff` | plugin/rewrite/name.go:158-298 | under rules that never lead to the root, subdomains come back if and only if the question was not the root |
| `Rewrite.OneStageUndoneIff` | plugin/rewrite/name.go:158-298 | when one rule fires the name always comes back, and subdomains if and only if it moves neither to nor from the root |
| `Rewrite.RootIsNotUndoneBelow` | plugin/rewrite/name.go:65-73 | rewriting the root gives a subdomain with an empty label |
| `Overlap.ZoneOverlap.constructor` | core/dnsserver/address.go:45-47 | a new checker has nothing registered |
| `Overlap.ZoneOverlap.Check` | core/dnsserver/address.go:63-81 | finds exactly the registered equal address, or a registered overlapping one, and is free only when there is neither |
| `Overlap.ZoneOverlap.RegisterAndCheck` | core/dnsserver/address.go:51-60 | registers exactly the free addresses and keeps the two maps consistent |
| `Overlap.ValidateHosts` | core/dnsserver/register.go:237-256 | the hosts of one configuration are accepted if and only if none clashes with an earlier listener |
| `Overlap.Validate` | core/dnsserver/register.go:231-258 | a configuration is accepted if and only if no listener clashes with an earlier unfiltered one |
| `Overlap.UnfilteredAcceptedIff` | core/dnsserver/address.go:49-81 | without filters: accepted if and only if pairwise distinct and no unbound listener shares zone, port and transport with a bound one |
| `Overlap.UnfilteredOrderIrrelevant` | core/dnsserver/register.go:231-258 | acceptance of unfiltered configurations does not depend on their order |
| `Overlap.OrderIrrelevantIff` | core/dnsserver/register.go:239-243 | of an accepted configuration every order is accepted if and only if no filtered listener overlaps an unfiltered one |
| `Overlap.OrderMatters` | core/dnsserver/register.go:239-243 | a filtered unbound block before a bound unfiltered one is accepted, the other way round refused |

## Left out

- Configuration parsing, metrics, logging, tracing, the HTTP API, network listeners and cloud clients: no invariant of their own.
- `Zone.Lookup`'s additional section with its glue, and the authority section of SOA and NS answers at the apex, are not modelled.
- Zone file parsing, reload and NOTIFY handling: input and output.
- Deletion from the zone tree: the zone engine does not use it.
- Aliasing of record slices that share a backing array: record lists are values here.
- Escaped octets and mixed case inside the zone tree: names are lower-case labels.
- Chase.ExternalLookup: when the zone is replaced during the query only the chain and its bound are stated, because the trail then depends on which generation each read sees.
- Chase.Serve: NOTIFY messages are not modelled; the next plugin, for names of no zone and after a fallthrough, is an input, and so is which zones may be found expired.
- Denial.Deny: at a root apex the second node is an input, because the code builds a wildcard that is not a name; the encloser is looked up in the generation that the query started with.
- SignedLookup.LookupSigned: the zone is not replaced during the query; with chased aliases the code sends the NS records of the zone as it is by then.
- TenantStore.Store: the readers `ListZones`, `ListRecords`, `GetRecord` and `Lookup` are not modelled.
- Snapshot.Import: JSON encoding is taken to lose nothing; the derived record count is not stored.
- Durability.StateFileIsDurable: I/O errors are left out, and the rename is atomic.
- Cache.ServeHit: verification of stale items before they are served, the prefetch threshold and the wildcard metadata are left out.
- Cache.NewItem: durations are converted to whole seconds exactly, without floating-point rounding and without the 32-bit limit of the TTL.
- Cache.HitReplaysReply: later handlers are taken not to change the question.
- Secondary.ExpiryIsJustified: jitter is part of elapsed time, timers are positive, and shutdown is not modelled.
- LoadBalance.TopAddressIndex: the sort by weight is an input, constrained to be a rearrangement; concurrent reloads of the weights are left out.
- Rewrite.RulesAreUndone: rules with explicit answer rules, class, type, TTL, EDNS0, CNAME and rcode rules are left out; which submatches a regular expression finds is an input. For a final name that is the root, subdomains are decided for one firing only (`StageUndoneBelowIff`), because earlier rewriters can match the subdomain by accident.
- Overlap.Validate: which of several clashes is reported is not stated.
