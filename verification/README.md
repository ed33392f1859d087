# O-RAN simulator and agent harness: a verified model

This project models the in-memory state machines and algorithms that sit behind the HTTP services of the
5G core emulator, the telemetry cache beside it, and the agent harness pipeline, and proves what they keep
over every run. Requests are method calls. Clocks, random identifiers and challenges, balances and
configuration tables are parameters; SHA-256 and HMAC are functions of which only the output length is known.

`dafny verify dfyconfig.toml` checks everything.

| file | component | shape |
|---|---|---|
| `JsonCache.dfy` | the bounded expiring cache and its file | refinement of a cache without leftovers |
| `Pgw.dfy`, `Hex.dfy` | PDN gateway: sessions, bearers, tunnel ids, address pools | one class over shared session objects, invariant over runs |
| `Mrf.dfy` | media resource function: the RTP port pool and its holders | conservation with a ledger of holders |
| `Bsf.dfy` | binding support function: store and address indexes | fast path against full scan |
| `Hss.dfy` | 4G HSS: authentication vectors and sequence numbers | round trip with a USIM, over runs |
| `ImsHss.dfy` | IMS HSS: Cx registration state | two-map database against per-subscriber history |
| `Nssf.dfy` | slice selection for registration | nested loops against a quantified rule |
| `Nrf.dfy` | discovery | filter, stable ranking, limit |
| `Mme.dfy` | UE contexts and GUTI reallocation | shared contexts under several indexes, over runs |
| `Ipsec.dfy` | prf+ key material, installing and cleaning up child SAs | loop against the stream; undo |
| `GapCompressor.dfy` | the timeline's gap compression | exact shift |
| `Chf.dfy` | converged charging | sums over a session's history |
| `Harness.dfy` | router, guardrail, walker, taxonomy graph | two runners agree; no unsafe audit event |
| `Common.dfy` | Option and Result, lists of ids | |

Each component has a value `State`, functions that say what one request does to it, lemmas about single
requests and whole runs, and a class or methods in the source's imperative form whose postconditions equate
the new state with those functions. `View()` is the value of an object. The PDN gateway is the exception: its
sessions are objects shared by three dictionaries, so its facts are invariants of the class and of `Serve`.
For each component the answers of its requests are also stated a second time, field by field and without the
functions that the classes share with them (`Mme.ServiceAnswersExactly`, `Bsf.FindAnswersExactly`,
`Chf.SessionIsAccount`, `Hss.AnswerByteByByte` and others).
Where the source shares an object between dictionaries and only its identity matters, the model names it by
that identity: UE contexts by their ue_id, and the usage dictionary that charging records share with their
session by the session.

## Where the code differs from what one would expect

Each of these is stated by the contract of the member named.

- BSF: a second binding of an address silently takes over the index entry. Deleting it removes the entry of
  the first, whose next address update then fails with a KeyError (`Bsf.SharedAddressBreaksTheIndex`).
- BSF: the fast path ignores supi, gpsi, mac and ipDomain (`Bsf.DiscoveryEqualsScan`).
- MRF: every transcoding request that finds a port loses one for good; with a single port left it loses that
  one and fails (`Mrf.RunConserves`, `Mrf.StoppingATranscoderLeaks`).
- PGW: the address of a session on an unconfigured APN is never given back (`Pgw.LeaksExactly`, `Pgw.Serve`).
- MME: a GUTI from before a second attach outlives the detach and can bring the old context back
  (`Mme.StaleGutiRevives`); this is so on exactly the runs where some attach finds an existing context
  (`Mme.NoStaleExactly`).
- HSS: a request that runs past the last six-byte SQN fails, loses the vectors it had made and leaves the
  SQN advanced (`Hss.DrawSucceeds`).
- IMS HSS: a server registered with an empty name counts as registered but LIR says it is not; overlapping
  public identities break the index (`ImsHss.NotRegisteredMeansNoServer`, `ImsHss.SharedIdentityIsLost`).
- IMS HSS: UAR accepts any private identity without an "@" (`ImsHss.UarRefusesIdentityExactly`).
- IMS HSS: the two deregistration types that should keep the server name, 6 and 7, change nothing at all
  (`ImsHss.OtherTypesChangeNothing`).
- NSSF: a roamer can be told that a slice is both rejected and allowed (`Nssf.RoamerListsOverlap`).
- NRF: the dnn filter is accepted and never used (`Nrf.DnnIsIgnored`); a limit of zero is no limit and
  a negative one drops from the end (`Nrf.DiscoveryCount`). The HTTP layer only lets limits from one upwards
  through.
- IPsec: policies are keyed by selectors and direction alone, so children with the default selectors remove
  each other's policies (`Ipsec.SameSelectorsCollide`). Key lengths over 2040
  overflow the counter octet (`Ipsec.GenerateKeymat`).
- Gap compressor: the gap is measured from the previous event's end, so events that were apart can overlap
  afterwards (`GapCompressor.LongEventRunsIntoLater`, `GapCompressor.ApartExactly`).
- CHF: a record's usage is the session's own dictionary and a released session still takes requests, so a
  record can show usage that its charge does not cover (`Chf.RecordsShowLaterUsage`).
- CHF: the first record of a session has no end time, because it is made before the session is closed
  (`Chf.ReleaseRecordsTotals`).
- Harness: the walker does not consult the taxonomy (`Harness.WalkerActsWhereGraphDoes`,
  `Harness.WalkerIgnoresTaxonomy`), and the graph fills in a missing layer where the walker fails
  (`Harness.GraphActsWhereWalkerDoes`).

## Model

| member | source | states |
|---|---|---|
| `JsonCache.StepFollowsIdeal` | 5G_O-RAN_SIM/open-digital-platform-2_0/OpenTelelmetry_Data/cache-json-engine.py:16-63 | one call on the real cache answers what a cache without leftovers answers, and leaves the same unexpired entries, for every call and every consistent cache and file |
| `JsonCache.AnswersAreIdeal` | 5G_O-RAN_SIM/open-digital-platform-2_0/OpenTelelmetry_Data/cache-json-engine.py:26-63 | every sequence of calls, reloads from the file among them, is answered as by a cache that drops entries the moment they expire |
| `JsonCache.LeftoversAreInvisible` | 5G_O-RAN_SIM/open-digital-platform-2_0/OpenTelelmetry_Data/cache-json-engine.py:16-63 | two caches with the same unexpired entries answer every later sequence of calls identically, whatever expired entries they or their files still hold |
| `JsonCache.PassiveCallsAreInvisible` | 5G_O-RAN_SIM/open-digital-platform-2_0/OpenTelelmetry_Data/cache-json-engine.py:16-63 | leaving out any of a run's lookups, listings, clearings and reloads, in whatever number and order, leaves every other answer the same |
| `JsonCache.SetThenGet` | 5G_O-RAN_SIM/open-digital-platform-2_0/OpenTelelmetry_Data/cache-json-engine.py:26-45 | a value that was set is found, whatever passive calls come between, exactly while it is younger than the expiry time and max_size is positive |
| `JsonCache.RemoveThenGet` | 5G_O-RAN_SIM/open-digital-platform-2_0/OpenTelelmetry_Data/cache-json-engine.py:26-63 | a removed key is not found after any passive calls |
| `JsonCache.EveryRunIsConsistent` | 5G_O-RAN_SIM/open-digital-platform-2_0/OpenTelelmetry_Data/cache-json-engine.py:16-63 | on every well-timed run from empty, memory and file stay within max_size, have distinct stamps, and memory lacks nothing unexpired of the file |
| `JsonCache.EvictedIsOldest` | 5G_O-RAN_SIM/open-digital-platform-2_0/OpenTelelmetry_Data/cache-json-engine.py:36-45 | a set drops one key, only past max_size, and what goes is strictly older than all that stays |
| `JsonCache.EvictionSparesUnexpired` | 5G_O-RAN_SIM/open-digital-platform-2_0/OpenTelelmetry_Data/cache-json-engine.py:42-44 | while anything expired is held, it is an expired entry that eviction takes |
| `JsonCache.MostRecentAfterAdd` | 5G_O-RAN_SIM/open-digital-platform-2_0/OpenTelelmetry_Data/cache-json-engine.py:36-45 | adding a key and evicting the oldest keeps exactly the n most recently set keys |
| `JsonCache.KeepsMostRecent` | 5G_O-RAN_SIM/open-digital-platform-2_0/OpenTelelmetry_Data/cache-json-engine.py:36-45 | with no removal or expiry the cache and the file are exactly the max_size most recently set keys with their last values |
| `JsonCache.EnhancedJsonCache.constructor` | 5G_O-RAN_SIM/open-digital-platform-2_0/OpenTelelmetry_Data/cache-json-engine.py:8-20 | the object starts with what the file holds, or empty |
| `JsonCache.EnhancedJsonCache.Get` | 5G_O-RAN_SIM/open-digital-platform-2_0/OpenTelelmetry_Data/cache-json-engine.py:26-34 | the read is the model step: it answers fresh data and deletes an expired entry without saving |
| `JsonCache.EnhancedJsonCache.Set` | 5G_O-RAN_SIM/open-digital-platform-2_0/OpenTelelmetry_Data/cache-json-engine.py:36-45 | the entry is stored, the oldest dropped past max_size, and the file written; with tied stamps any oldest key may go |
| `JsonCache.EnhancedJsonCache.OldestKey` | 5G_O-RAN_SIM/open-digital-platform-2_0/OpenTelelmetry_Data/cache-json-engine.py:43 | the loop finds a key that no other is older than |
| `JsonCache.EnhancedJsonCache.ClearExpired` | 5G_O-RAN_SIM/open-digital-platform-2_0/OpenTelelmetry_Data/cache-json-engine.py:47-53 | the loop leaves exactly the entries not past their time, and saves |
| `JsonCache.EnhancedJsonCache.GetAll` | 5G_O-RAN_SIM/open-digital-platform-2_0/OpenTelelmetry_Data/cache-json-engine.py:55-57 | although the clock is read once per entry, everything fresh at the last reading is listed and nothing stale at the first |
| `JsonCache.EnhancedJsonCache.Remove` | 5G_O-RAN_SIM/open-digital-platform-2_0/OpenTelelmetry_Data/cache-json-engine.py:59-63 | a present key goes, and only then the file is written |
| `Hex.RoundTrip` | 5G_O-RAN_SIM/open-digital-platform-2_0/5G_Emulator_API/core_network/pgw.py:248-251 | a counter printed as eight or more hexadecimal digits reads back as itself, so no two print alike |
| `Hex.PrintShape` | 5G_O-RAN_SIM/open-digital-platform-2_0/5G_Emulator_API/core_network/pgw.py:248-251 | the print-out has at least eight digits and no idle zero in front of more than eight |
| `Pgw.PgwContext.constructor` | 5G_O-RAN_SIM/open-digital-platform-2_0/5G_Emulator_API/core_network/pgw.py:176-246 | a new gateway is consistent and empty |
| `Pgw.PgwContext.AllocateIp` | 5G_O-RAN_SIM/open-digital-platform-2_0/5G_Emulator_API/core_network/pgw.py:253-280 | one allocation: which address, and the pools and counters after it |
| `Pgw.PgwContext.ReleaseIp` | 5G_O-RAN_SIM/open-digital-platform-2_0/5G_Emulator_API/core_network/pgw.py:282-286 | the first occurrence of the address leaves its pool's list |
| `Pgw.PgwContext.AddSession` | 5G_O-RAN_SIM/open-digital-platform-2_0/5G_Emulator_API/core_network/pgw.py:292-301 | all three dictionaries gain the session and the count goes up |
| `Pgw.PgwContext.RemoveSession` | 5G_O-RAN_SIM/open-digital-platform-2_0/5G_Emulator_API/core_network/pgw.py:303-322 | all three dictionaries lose the session, the counts stay the real ones, the other sessions' bearers stay |
| `Pgw.PgwContext.AllocateAddresses` | 5G_O-RAN_SIM/open-digital-platform-2_0/5G_Emulator_API/core_network/pgw.py:382-392 | the IPv4 address and the IPv6 prefix of a session, by PDN type |
| `Pgw.PgwContext.CreateBearers` | 5G_O-RAN_SIM/open-digital-platform-2_0/5G_Emulator_API/core_network/pgw.py:411-456 | the loop gives the i-th bearer the i-th tunnel id after the counter and the requested or default values |
| `Pgw.PgwContext.CreateSession` | 5G_O-RAN_SIM/open-digital-platform-2_0/5G_Emulator_API/core_network/pgw.py:361-459 | refused exactly when the type is unreadable or no address is free; otherwise one new session of the stated or configured type, with its addresses, and with each bearer having the EBI, QCI and priority that its context asks for or the default, in every index; and the invariant holds: indexes agree, counts are real, tunnel ids are distinct, address lists match the live sessions |
| `Pgw.PgwContext.DeleteSession` | 5G_O-RAN_SIM/open-digital-platform-2_0/5G_Emulator_API/core_network/pgw.py:485-507 | the session leaves every index; its address goes back only for a configured APN, else it leaks; the invariant holds |
| `Pgw.PgwContext.CreateDedicatedBearer` | 5G_O-RAN_SIM/open-digital-platform-2_0/5G_Emulator_API/core_network/pgw.py:554-618 | each refusal and its exact condition; otherwise one bearer with EBI one above the highest and a new tunnel id; EBIs stay distinct |
| `Pgw.PgwContext.DeleteDedicatedBearer` | 5G_O-RAN_SIM/open-digital-platform-2_0/5G_Emulator_API/core_network/pgw.py:633-658 | each refusal and its exact condition; otherwise the first bearer with the EBI goes, and no other |
| `Pgw.Serve` | 5G_O-RAN_SIM/open-digital-platform-2_0/5G_Emulator_API/core_network/pgw.py:361-658 | on every run of requests the whole invariant holds; the recorded answers only grow, never repeat, prefixes included, and stay in range; leaked addresses never disappear; EBIs stay distinct when requests ask for distinct ones; nothing leaks when all APNs are configured |
| `Pgw.TeidTextsDistinct` | 5G_O-RAN_SIM/open-digital-platform-2_0/5G_Emulator_API/core_network/pgw.py:248-251 | the printed tunnel ids of live bearers are distinct |
| `Pgw.EbisAfterCreate` | 5G_O-RAN_SIM/open-digital-platform-2_0/5G_Emulator_API/core_network/pgw.py:413-417 | a created session's EBIs are distinct exactly when the request asked for distinct ones |
| `Pgw.HistoryThroughAllocate` | 5G_O-RAN_SIM/open-digital-platform-2_0/5G_Emulator_API/core_network/pgw.py:253-280 | every address or prefix a pool answers is recorded in its history, and the history stays the addresses between network + 2 and the counter, or the prefixes below it |
| `Pgw.AddressesNeverRepeat` | 5G_O-RAN_SIM/open-digital-platform-2_0/5G_Emulator_API/core_network/pgw.py:253-286 | what an IPv4 pool of prefix at most 30 has answered over the whole run is pairwise distinct, above network + 1 and below broadcast, at most 2^(32 - p) - 3 addresses, and has every live and every leaked one |
| `Pgw.TinyPoolsStayEmpty` | 5G_O-RAN_SIM/open-digital-platform-2_0/5G_Emulator_API/core_network/pgw.py:266-267 | a pool of prefix 31 or 32 has no recorded answer |
| `Pgw.PrefixesNeverRepeat` | 5G_O-RAN_SIM/open-digital-platform-2_0/5G_Emulator_API/core_network/pgw.py:274-278 | what an IPv6 pool has answered over the whole run is pairwise distinct prefixes from 2 up |
| `Pgw.ExhaustedExactly` | 5G_O-RAN_SIM/open-digital-platform-2_0/5G_Emulator_API/core_network/pgw.py:253-280 | an allocation fails if and only if the pool is unknown or of both kinds, or an IPv4 pool has answered all its 2^(32 - p) - 3 usable addresses |
| `Pgw.NetworkIsAligned` | 5G_O-RAN_SIM/open-digital-platform-2_0/5G_Emulator_API/core_network/pgw.py:265 | a pool begins at the multiple of its size at or below its network address |
| `Pgw.PoolsShareTheSpace` | 5G_O-RAN_SIM/open-digital-platform-2_0/5G_Emulator_API/core_network/pgw.py:266 | the pool size times 2^prefix is 2^32 |
| `Pgw.AddressesOfSession` | 5G_O-RAN_SIM/open-digital-platform-2_0/5G_Emulator_API/core_network/pgw.py:382-392 | which address and which prefix a session gets, by its type and the counters of the two pools |
| `Pgw.TakenIsHeld` | 5G_O-RAN_SIM/open-digital-platform-2_0/5G_Emulator_API/core_network/pgw.py:253-286 | a pool's list counts the live and the leaked addresses once each, so it is exactly the live ones if and only if nothing leaked |
| `Pgw.LeaksExactly` | 5G_O-RAN_SIM/open-digital-platform-2_0/5G_Emulator_API/core_network/pgw.py:497-503 | a delete leaks if and only if the session has an address and its APN is not configured |
| `Pgw.AddressesAfterCreate` | 5G_O-RAN_SIM/open-digital-platform-2_0/5G_Emulator_API/core_network/pgw.py:382-392 | every pool still agrees with the live sessions after a create |
| `Pgw.AddressesAfterRefusal` | 5G_O-RAN_SIM/open-digital-platform-2_0/5G_Emulator_API/core_network/pgw.py:385-390 | and after a refused create, whose allocation may have set a counter |
| `Pgw.AddressesAfterDelete` | 5G_O-RAN_SIM/open-digital-platform-2_0/5G_Emulator_API/core_network/pgw.py:497-503 | and after a delete, whether the address goes back or leaks |
| `Mrf.SortedAppend` | 5G_O-RAN_SIM/open-digital-platform-2_0/5G_Emulator_API/core_network/mrf.py:203-207 | appending a port and sorting keeps the pool strictly ascending and adds just that port |
| `Mrf.AscendingIsUnique` | 5G_O-RAN_SIM/open-digital-platform-2_0/5G_Emulator_API/core_network/mrf.py:203-207 | an ascending pool is determined by its elements, so stating its set states the list |
| `Mrf.Least` | 5G_O-RAN_SIM/open-digital-platform-2_0/5G_Emulator_API/core_network/mrf.py:196-201 | the least free port, which is what popping the front of an ascending pool yields |
| `Mrf.AddMemberConserves` | 5G_O-RAN_SIM/open-digital-platform-2_0/5G_Emulator_API/core_network/mrf.py:364-421 | adding a member keeps every port with one holder or in the pool, none gained or lost |
| `Mrf.RemoveMemberConserves` | 5G_O-RAN_SIM/open-digital-platform-2_0/5G_Emulator_API/core_network/mrf.py:443-468 | so does removing one, through the double release when the exit ends the conference |
| `Mrf.DestroyConserves` | 5G_O-RAN_SIM/open-digital-platform-2_0/5G_Emulator_API/core_network/mrf.py:318-335 | so does destroying a conference |
| `Mrf.CreateTranscodingConserves` | 5G_O-RAN_SIM/open-digital-platform-2_0/5G_Emulator_API/core_network/mrf.py:670-710 | so does a transcoding request, which loses exactly one port when the codecs are supported and a port is free |
| `Mrf.DeleteTranscodingConserves` | 5G_O-RAN_SIM/open-digital-platform-2_0/5G_Emulator_API/core_network/mrf.py:723-733 | so does deleting one |
| `Mrf.RunConserves` | 5G_O-RAN_SIM/open-digital-platform-2_0/5G_Emulator_API/core_network/mrf.py:196-207 | from any consistent state, every run conserves the ports, and loses for good exactly one for each transcoding request that finds a port |
| `Mrf.PortsAlwaysAddUp` | 5G_O-RAN_SIM/open-digital-platform-2_0/5G_Emulator_API/core_network/mrf.py:173 | from the start of the service free and held ports always number 1000, and after 1000 losses none is free |
| `Mrf.PairsNeverOverlap` | 5G_O-RAN_SIM/open-digital-platform-2_0/5G_Emulator_API/core_network/mrf.py:201 | no RTP port of the pool is another's RTCP port |
| `Mrf.NoPortHeldTwice` | 5G_O-RAN_SIM/open-digital-platform-2_0/5G_Emulator_API/core_network/mrf.py:399-416 | at the end of any run a port in a stream is in no other stream, no transcoder and not in the pool, and was there at the start |
| `Mrf.LeavingUndoesJoining` | 5G_O-RAN_SIM/open-digital-platform-2_0/5G_Emulator_API/core_network/mrf.py:364-474 | a member who joins and leaves restores the whole state |
| `Mrf.StoppingATranscoderLeaks` | 5G_O-RAN_SIM/open-digital-platform-2_0/5G_Emulator_API/core_network/mrf.py:687-733 | starting and stopping a transcoder costs the pool its second port and changes nothing else |
| `Mrf.JoinAfterCreate` | 5G_O-RAN_SIM/open-digital-platform-2_0/5G_Emulator_API/core_network/mrf.py:237-421 | who gets into a conference just created, in terms of the settings it was created with, and as what: moderator by the moderator PIN alone, silent when it mutes on entry, on the least free port |
| `Mrf.JoinAnswersExactly` | 5G_O-RAN_SIM/open-digital-platform-2_0/5G_Emulator_API/core_network/mrf.py:364-421 | each refusal of a caller with its exact condition, in order; one who is let in is the only change |
| `Mrf.LeaveAnswersExactly` | 5G_O-RAN_SIM/open-digital-platform-2_0/5G_Emulator_API/core_network/mrf.py:443-474 | leaving frees exactly the member's ports, or all of the conference that its exit ends, and touches no other conference |
| `Mrf.RoomAnswersExactly` | 5G_O-RAN_SIM/open-digital-platform-2_0/5G_Emulator_API/core_network/mrf.py:318-357 | destroying frees exactly the ports of the conference's members; locking and unlocking change its state alone |
| `Mrf.TranscodeAnswersExactly` | 5G_O-RAN_SIM/open-digital-platform-2_0/5G_Emulator_API/core_network/mrf.py:670-710 | a transcoding request needs two of the five codecs and two free ports, and records the least |
| `Mrf.MrfStorage.AllocateRtpPorts` | 5G_O-RAN_SIM/open-digital-platform-2_0/5G_Emulator_API/core_network/mrf.py:196-201 | the pair of the least port, or none when the pool is empty |
| `Mrf.MrfStorage.ReleaseRtpPorts` | 5G_O-RAN_SIM/open-digital-platform-2_0/5G_Emulator_API/core_network/mrf.py:203-207 | the port joins the pool, once, in its place |
| `Mrf.MrfStorage.CreateConference` | 5G_O-RAN_SIM/open-digital-platform-2_0/5G_Emulator_API/core_network/mrf.py:237-266 | at most 100 conferences; the new one is active and empty |
| `Mrf.MrfStorage.DestroyConference` | 5G_O-RAN_SIM/open-digital-platform-2_0/5G_Emulator_API/core_network/mrf.py:318-339 | the loops over members and streams return every port, in whatever order |
| `Mrf.MrfStorage.LockConference` | 5G_O-RAN_SIM/open-digital-platform-2_0/5G_Emulator_API/core_network/mrf.py:341-348 | a known conference is locked, whatever its state was, and nothing else changes; no port moves |
| `Mrf.MrfStorage.UnlockConference` | 5G_O-RAN_SIM/open-digital-platform-2_0/5G_Emulator_API/core_network/mrf.py:350-357 | a known conference becomes active, whatever its state was, and nothing else changes |
| `Mrf.MrfStorage.Admit` | 5G_O-RAN_SIM/open-digital-platform-2_0/5G_Emulator_API/core_network/mrf.py:375-396 | the nested checks let in exactly a caller of an open conference with room who needs no PIN or knows one of its PINs, and make a moderator of one sent as such or let in by the moderator PIN alone |
| `Mrf.MrfStorage.AddMember` | 5G_O-RAN_SIM/open-digital-platform-2_0/5G_Emulator_API/core_network/mrf.py:364-421 | refused for the first reason that applies; otherwise the member holds the least free port |
| `Mrf.MrfStorage.RemoveMember` | 5G_O-RAN_SIM/open-digital-platform-2_0/5G_Emulator_API/core_network/mrf.py:443-474 | the ports go back; a member whose exit ends the conference takes it along |
| `Mrf.MrfStorage.CreateTranscodingSession` | 5G_O-RAN_SIM/open-digital-platform-2_0/5G_Emulator_API/core_network/mrf.py:670-710 | two ports taken, one recorded; with one left it is taken and the call fails |
| `Mrf.MrfStorage.DeleteTranscodingSession` | 5G_O-RAN_SIM/open-digital-platform-2_0/5G_Emulator_API/core_network/mrf.py:723-735 | the input port goes back |
| `Bsf.AddressDiscoveryEqualsScan` | 5G_O-RAN_SIM/open-digital-platform-2_0/5G_Emulator_API/core_network/bsf.py:144-183 | in every sound state, discovery by one address equals the full scan exactly when no live binding besides the indexed one passes the query |
| `Bsf.AddressDiscoveryIsComplete` | 5G_O-RAN_SIM/open-digital-platform-2_0/5G_Emulator_API/core_network/bsf.py:144-183 | with every address bound once, discovery by address, dnn and slice is the full scan |
| `Bsf.DiscoveryEqualsScan` | 5G_O-RAN_SIM/open-digital-platform-2_0/5G_Emulator_API/core_network/bsf.py:147-162 | and any query equals the scan exactly when the indexed binding passes the filters that the fast path skips |
| `Bsf.DiscoveryIsSound` | 5G_O-RAN_SIM/open-digital-platform-2_0/5G_Emulator_API/core_network/bsf.py:147-183 | without uniqueness an address query still never returns a wrong binding |
| `Bsf.ScanReturnsExactly` | 5G_O-RAN_SIM/open-digital-platform-2_0/5G_Emulator_API/core_network/bsf.py:155-183 | the scan returns, in order of creation and once each, exactly the bindings that no filter of the query speaks against, each filter written out |
| `Bsf.FindAnswersExactly` | 5G_O-RAN_SIM/open-digital-platform-2_0/5G_Emulator_API/core_network/bsf.py:132-183 | an indexed IPv4 address answers first, then an indexed prefix, each unless name or slice rules its binding out, and the scan answers the rest |
| `Bsf.CreateAnswersExactly` | 5G_O-RAN_SIM/open-digital-platform-2_0/5G_Emulator_API/core_network/bsf.py:106-130 | a create fails exactly without a PCF or without an address, and otherwise adds the binding last and just its own index entries |
| `Bsf.UpdateAnswersExactly` | 5G_O-RAN_SIM/open-digital-platform-2_0/5G_Emulator_API/core_network/bsf.py:201-235 | an update fails exactly for an unknown binding or a lost index entry, and otherwise changes just the given fields and the entries of the replaced addresses |
| `Bsf.DeleteTakesExactly` | 5G_O-RAN_SIM/open-digital-platform-2_0/5G_Emulator_API/core_network/bsf.py:237-255 | a delete takes just the binding, its place, its index entries and its id under its SUPI |
| `Common.WithoutMembers` | 5G_O-RAN_SIM/open-digital-platform-2_0/5G_Emulator_API/core_network/bsf.py:250 | removing an id from a list without duplicates takes just that id |
| `Bsf.CreateKeeps` | 5G_O-RAN_SIM/open-digital-platform-2_0/5G_Emulator_API/core_network/bsf.py:106-130 | creating keeps every index entry true, and keeps exact indexes exact if and only if it is refused or its addresses were free |
| `Bsf.UpdateKeepsSound` | 5G_O-RAN_SIM/open-digital-platform-2_0/5G_Emulator_API/core_network/bsf.py:201-235 | updating keeps every index entry true, also when it fails half-way |
| `Bsf.UpdateKeepsExact` | 5G_O-RAN_SIM/open-digital-platform-2_0/5G_Emulator_API/core_network/bsf.py:209-221 | from exact indexes an update keeps them exact if and only if it binds only addresses that no other binding carries, and then meets no missing entry |
| `Bsf.DeleteKeeps` | 5G_O-RAN_SIM/open-digital-platform-2_0/5G_Emulator_API/core_network/bsf.py:237-255 | deleting keeps the entries true and the indexes exact |
| `Bsf.IndexesStayExact` | 5G_O-RAN_SIM/open-digital-platform-2_0/5G_Emulator_API/core_network/bsf.py:106-255 | after every call of a run each address is bound once and indexed, if and only if no create that is not refused and no update of a live binding binds an address that another live binding carries then |
| `Bsf.DiscoveryOnEveryRun` | 5G_O-RAN_SIM/open-digital-platform-2_0/5G_Emulator_API/core_network/bsf.py:106-255 | on every run index entries are true; on a run as above discovery by address is the scan and no call meets a missing entry |
| `Bsf.SharedAddressBreaksTheIndex` | 5G_O-RAN_SIM/open-digital-platform-2_0/5G_Emulator_API/core_network/bsf.py:121-124 | two bindings of one address: only the later is found, deleting it removes the other's entry, and the next update of the other fails |
| `Bsf.BSF.CreateBinding` | 5G_O-RAN_SIM/open-digital-platform-2_0/5G_Emulator_API/core_network/bsf.py:106-130 | the two refusals, or the binding stored and entered in each index it has a value for |
| `Bsf.BSF.FindBindings` | 5G_O-RAN_SIM/open-digital-platform-2_0/5G_Emulator_API/core_network/bsf.py:132-183 | the first index with an entry answers alone; otherwise the loop lists what passes all filters, in order |
| `Bsf.BSF.UpdateBinding` | 5G_O-RAN_SIM/open-digital-platform-2_0/5G_Emulator_API/core_network/bsf.py:201-235 | addresses move with their entries, an unguarded deletion may fail, the other fields follow |
| `Bsf.BSF.DeleteBinding` | 5G_O-RAN_SIM/open-digital-platform-2_0/5G_Emulator_API/core_network/bsf.py:237-255 | the binding and its entries go, an emptied SUPI list with them |
| `Hss.NumberRoundTrip` | 5G_O-RAN_SIM/open-digital-platform-2_0/5G_Emulator_API/core_network/hss.py:246 | a number that fits n bytes reads back from its big-endian bytes |
| `Hss.XorUndone` | 5G_O-RAN_SIM/open-digital-platform-2_0/5G_Emulator_API/core_network/hss.py:158-160 | xor with the same bytes twice gives the data back, when they are long enough |
| `Hss.AutnLength` | 5G_O-RAN_SIM/open-digital-platform-2_0/5G_Emulator_API/core_network/hss.py:252-256 | how long AUTN is for any OPc and AMF |
| `Hss.AutnRoundTrip` | 5G_O-RAN_SIM/open-digital-platform-2_0/5G_Emulator_API/core_network/hss.py:240-268 | a card with the same K and OPc recovers from RAND and AUTN exactly the SQN and AMF, the same RES and KASME, if and only if AUTN has its 16 bytes, that is OPc at least eight; it refuses only an SQN it has seen |
| `Hss.DrawSucceeds` | 5G_O-RAN_SIM/open-digital-platform-2_0/5G_Emulator_API/core_network/hss.py:446-450 | a request for n vectors succeeds exactly when all n SQNs fit six bytes; otherwise the SQN stops at the first that does not |
| `Hss.DrawnVector` | 5G_O-RAN_SIM/open-digital-platform-2_0/5G_Emulator_API/core_network/hss.py:447-450 | the i-th vector carries the i-th next SQN and the i-th challenge |
| `Hss.AnswerIsAccepted` | 5G_O-RAN_SIM/open-digital-platform-2_0/5G_Emulator_API/core_network/hss.py:432-456 | every vector of an answer is accepted by the subscriber's card, in order, each with the next SQN and the same RES and KASME |
| `Hss.SqnsAreConsecutive` | 5G_O-RAN_SIM/open-digital-platform-2_0/5G_Emulator_API/core_network/hss.py:358-364 | over any run of requests for any subscribers, one card accepts every vector handed out for it and finds consecutive SQNs from just above the stored one |
| `Hss.StoredSqnIsLast` | 5G_O-RAN_SIM/open-digital-platform-2_0/5G_Emulator_API/core_network/hss.py:358-364 | if none of its requests fails, the stored SQN is the last handed out |
| `Hss.XorBit` | 5G_O-RAN_SIM/open-digital-platform-2_0/5G_Emulator_API/core_network/hss.py:158-160 | a bit of the exclusive or is set exactly when the two bits differ |
| `Hss.KeysByteByByte` | 5G_O-RAN_SIM/open-digital-platform-2_0/5G_Emulator_API/core_network/hss.py:189-222 | RES, CK, IK and AK byte by byte for 16-byte RAND and OPc: which byte of the ciphered block, turned by how much, under which constant |
| `Hss.MacByteByByte` | 5G_O-RAN_SIM/open-digital-platform-2_0/5G_Emulator_API/core_network/hss.py:167-187 | MAC-A and MAC-S byte by byte, for any SQN and AMF |
| `Hss.AnswerByteByByte` | 5G_O-RAN_SIM/open-digital-platform-2_0/5G_Emulator_API/core_network/hss.py:240-450 | every vector of a successful answer byte by byte, with only SHA-256 and the HMAC left open: RAND, XRES, SQN xor AK, AMF, MAC-A and KASME for the i-th next SQN |
| `Hss.OpcByteByByte` | 5G_O-RAN_SIM/open-digital-platform-2_0/5G_Emulator_API/core_network/hss.py:432-440 | the OPc is the subscriber's own, else ciphered from its OP, else the default number |
| `Hss.AirAnswersExactly` | 5G_O-RAN_SIM/open-digital-platform-2_0/5G_Emulator_API/core_network/hss.py:402-456 | which code a request gets, what is counted, how many vectors come, and that no other subscriber changes |
| `Hss.HssContext.IncrementSqn` | 5G_O-RAN_SIM/open-digital-platform-2_0/5G_Emulator_API/core_network/hss.py:358-364 | the subscriber's SQN goes up by one; zero for an unknown one |
| `Hss.HssContext.AuthenticationInformationRequest` | 5G_O-RAN_SIM/open-digital-platform-2_0/5G_Emulator_API/core_network/hss.py:402-456 | 5001 unknown, 5004 inactive, else the vectors, or a failure that leaves the SQN advanced |
| `ImsHss.CreateKeepsExactly` | 5G_O-RAN_SIM/open-digital-platform-2_0/5G_Emulator_API/core_network/ims_hss.py:443-447 | creating a subscription keeps the public-identity index right if and only if it has a name and none of its identities is in use |
| `ImsHss.IndexStaysRight` | 5G_O-RAN_SIM/open-digital-platform-2_0/5G_Emulator_API/core_network/ims_hss.py:443-467 | the index is right after every request of a run if and only if every new subscription has a name and none of the identities in use when it is created |
| `ImsHss.StepKeeps` | 5G_O-RAN_SIM/open-digital-platform-2_0/5G_Emulator_API/core_network/ims_hss.py:443-467 | every request keeps the public-identity index sending each identity to its one live owner, if a new subscription's identities are not in use |
| `ImsHss.RunFollowsHistory` | 5G_O-RAN_SIM/open-digital-platform-2_0/5G_Emulator_API/core_network/ims_hss.py:349-467 | on every such run the two-map database holds for each private identity what its own requests alone make of it |
| `ImsHss.LookupFindsOwner` | 5G_O-RAN_SIM/open-digital-platform-2_0/5G_Emulator_API/core_network/ims_hss.py:436-441 | looking up a public identity finds its owner and only its owner |
| `ImsHss.LastEffectiveDecides` | 5G_O-RAN_SIM/open-digital-platform-2_0/5G_Emulator_API/core_network/ims_hss.py:638-664 | state and S-CSCF are those of the last effective SAR or RTR since creation |
| `ImsHss.AnswersFollowHistory` | 5G_O-RAN_SIM/open-digital-platform-2_0/5G_Emulator_API/core_network/ims_hss.py:481-569 | LIR for any public identity, and authorised UAR, depend on the last effective request alone |
| `ImsHss.OtherTypesChangeNothing` | 5G_O-RAN_SIM/open-digital-platform-2_0/5G_Emulator_API/core_network/ims_hss.py:638-664 | assignment types 0 and 6 to 14 answer success and change nothing, the two that should keep the server name among them |
| `ImsHss.UarRefusesIdentityExactly` | 5G_O-RAN_SIM/open-digital-platform-2_0/5G_Emulator_API/core_network/ims_hss.py:501-512 | UAR refuses the private identity of a known subscriber if and only if it is another one, has an @ and another domain |
| `ImsHss.UarAnswersExactly` | 5G_O-RAN_SIM/open-digital-platform-2_0/5G_Emulator_API/core_network/ims_hss.py:481-540 | UAR on every run, from the provision and the last effective request: wrong identity, then forbidden network, then the server of a registration or none yet |
| `ImsHss.ProvisionStays` | 5G_O-RAN_SIM/open-digital-platform-2_0/5G_Emulator_API/core_network/ims_hss.py:443-467 | on every run a subscription has the identities and roaming rights it was created with |
| `ImsHss.StrangersAreUnknown` | 5G_O-RAN_SIM/open-digital-platform-2_0/5G_Emulator_API/core_network/ims_hss.py:481-560 | a public identity of no live subscription gets 5001 from UAR and LIR |
| `ImsHss.DomainIsBetweenAts` | 5G_O-RAN_SIM/open-digital-platform-2_0/5G_Emulator_API/core_network/ims_hss.py:505-507 | the domain compared is the text between the first and the second @ |
| `ImsHss.NotRegisteredMeansNoServer` | 5G_O-RAN_SIM/open-digital-platform-2_0/5G_Emulator_API/core_network/ims_hss.py:638-717 | on every run a subscription is not registered exactly when no S-CSCF is stored, and LIR says so too exactly when the stored name is not empty |
| `ImsHss.SharedIdentityIsLost` | 5G_O-RAN_SIM/open-digital-platform-2_0/5G_Emulator_API/core_network/ims_hss.py:446-466 | after any run with separate subscriptions: a second subscription that shares a public identity and is deleted again leaves the first exactly as it was, registered or not, and unknown by that identity |
| `ImsHss.HssDatabase.GetSubscriptionByImpu` | 5G_O-RAN_SIM/open-digital-platform-2_0/5G_Emulator_API/core_network/ims_hss.py:436-441 | the two-step lookup |
| `ImsHss.HssDatabase.CreateSubscription` | 5G_O-RAN_SIM/open-digital-platform-2_0/5G_Emulator_API/core_network/ims_hss.py:790-828 | refused if the private identity exists, else stored and every public identity pointed to it |
| `ImsHss.HssDatabase.DeleteSubscription` | 5G_O-RAN_SIM/open-digital-platform-2_0/5G_Emulator_API/core_network/ims_hss.py:458-467 | the subscription and the index entries of its identities go, whoever they point to |
| `ImsHss.HssDatabase.UserAuthorizationRequest` | 5G_O-RAN_SIM/open-digital-platform-2_0/5G_Emulator_API/core_network/ims_hss.py:481-539 | the identity, roaming and registration checks in their order |
| `ImsHss.HssDatabase.LocationInfoRequest` | 5G_O-RAN_SIM/open-digital-platform-2_0/5G_Emulator_API/core_network/ims_hss.py:542-569 | the stored non-empty server name, or not registered, or unknown |
| `ImsHss.HssDatabase.ServerAssignmentRequest` | 5G_O-RAN_SIM/open-digital-platform-2_0/5G_Emulator_API/core_network/ims_hss.py:623-666 | what each assignment type does; a number that is no type fails after the lookup |
| `ImsHss.HssDatabase.RegistrationTerminationRequest` | 5G_O-RAN_SIM/open-digital-platform-2_0/5G_Emulator_API/core_network/ims_hss.py:703-717 | the registration and its server are cleared |
| `Nssf.JudgedIsSubsequence` | 5G_O-RAN_SIM/open-digital-platform-2_0/5G_Emulator_API/core_network/nssf.py:386-425 | the slices with a verdict stand at an ascending list of places, exactly those where the rule gives it |
| `Nssf.JudgedCount` | 5G_O-RAN_SIM/open-digital-platform-2_0/5G_Emulator_API/core_network/nssf.py:386-425 | each list has a slice as often as the request, or not at all |
| `Nssf.VerdictsConserve` | 5G_O-RAN_SIM/open-digital-platform-2_0/5G_Emulator_API/core_network/nssf.py:386-425 | allowed, rejected in PLMN and rejected in TA share out the request as multisets |
| `Nssf.MappedHomeIsLast` | 5G_O-RAN_SIM/open-digital-platform-2_0/5G_Emulator_API/core_network/nssf.py:398-415 | the mapped home slice is none without mapping, else the last subscribed slice that the request maps to |
| `Nssf.DefaultsMember` | 5G_O-RAN_SIM/open-digital-platform-2_0/5G_Emulator_API/core_network/nssf.py:427-439 | the fallback offers exactly the default subscribed slices that the area has |
| `Nssf.AllowsExactly` | 5G_O-RAN_SIM/open-digital-platform-2_0/5G_Emulator_API/core_network/nssf.py:386-439 | a slice is allowed by the request's verdicts if any is granted, else by the fallback |
| `Nssf.ListsAreDisjoint` | 5G_O-RAN_SIM/open-digital-platform-2_0/5G_Emulator_API/core_network/nssf.py:381-451 | the three lists are disjoint exactly when something requested was granted or no default slice is one that a roamer asked for and whose mapping leads to no subscribed slice |
| `Nssf.HomeListsAreDisjoint` | 5G_O-RAN_SIM/open-digital-platform-2_0/5G_Emulator_API/core_network/nssf.py:381-451 | for a subscriber at home they always are |
| `Nssf.RoamerListsOverlap` | 5G_O-RAN_SIM/open-digital-platform-2_0/5G_Emulator_API/core_network/nssf.py:427-451 | a roamer's only slice, default and non-standard, comes out both rejected and allowed, and from a home network that is known a registration gets that answer |
| `Nssf.CheckSnssaiInPlmn` | 5G_O-RAN_SIM/open-digital-platform-2_0/5G_Emulator_API/core_network/nssf.py:284-292 | the loop finds the slice exactly if the PLMN's table has it |
| `Nssf.CheckSnssaiInTa` | 5G_O-RAN_SIM/open-digital-platform-2_0/5G_Emulator_API/core_network/nssf.py:294-303 | an area without a table of its own has its PLMN's slices |
| `Nssf.FindSubscription` | 5G_O-RAN_SIM/open-digital-platform-2_0/5G_Emulator_API/core_network/nssf.py:393-415 | the nested loops decide subscription by the rule, and end with the last mapped home slice |
| `Nssf.PartitionRequested` | 5G_O-RAN_SIM/open-digital-platform-2_0/5G_Emulator_API/core_network/nssf.py:386-425 | the loop's three lists are the three verdicts |
| `Nssf.DefaultSlices` | 5G_O-RAN_SIM/open-digital-platform-2_0/5G_Emulator_API/core_network/nssf.py:427-439 | the fallback loop |
| `Nssf.ConfiguredMember` | 5G_O-RAN_SIM/open-digital-platform-2_0/5G_Emulator_API/core_network/nssf.py:510-526 | a slice is in the configured list if and only if it is subscribed and the area's PLMN has it |
| `Nssf.ConfiguredExactly` | 5G_O-RAN_SIM/open-digital-platform-2_0/5G_Emulator_API/core_network/nssf.py:453-455 | the answer configures it if and only if, besides, the default configuration was asked for or a requested slice was not subscribed |
| `Nssf.RegistrationAnswersExactly` | 5G_O-RAN_SIM/open-digital-platform-2_0/5G_Emulator_API/core_network/nssf.py:343-458 | the whole answer slice by slice with every rule written out: forbidden, unknown home network, unknown area, mapping request, or which slices are rejected, allowed with which instances and home slice, and configured |
| `Nssf.FallbackIsSubsequence` | 5G_O-RAN_SIM/open-digital-platform-2_0/5G_Emulator_API/core_network/nssf.py:427-440 | the fallback keeps the order and number of the default slices that the area has |
| `Nssf.ConfiguredIsSubsequence` | 5G_O-RAN_SIM/open-digital-platform-2_0/5G_Emulator_API/core_network/nssf.py:510-526 | so does the configured list for the slices of the area's PLMN |
| `Nssf.GetConfiguredNssai` | 5G_O-RAN_SIM/open-digital-platform-2_0/5G_Emulator_API/core_network/nssf.py:510-526 | the loop builds that list |
| `Nssf.NsSelectionForRegistration` | 5G_O-RAN_SIM/open-digital-platform-2_0/5G_Emulator_API/core_network/nssf.py:343-458 | the early rejections in their order, then the selection |
| `Nrf.SortIsRankedAndStable` | 5G_O-RAN_SIM/open-digital-platform-2_0/5G_Emulator_API/core_network/nrf.py:373 | the sort ranks by priority, then descending capacity, and keeps the order within each rank |
| `Nrf.RankingIsUnique` | 5G_O-RAN_SIM/open-digital-platform-2_0/5G_Emulator_API/core_network/nrf.py:373 | there is only one such list |
| `Nrf.DiscoveryIsBest` | 5G_O-RAN_SIM/open-digital-platform-2_0/5G_Emulator_API/core_network/nrf.py:309-379 | what is found passes every filter; without a limit all that passes is found; with one nothing left out ranks strictly before something returned |
| `Nrf.DiscoveryPrefersCapacity` | 5G_O-RAN_SIM/open-digital-platform-2_0/5G_Emulator_API/core_network/nrf.py:372-377 | in terms of the profile's fields: priorities ascend in what is returned and, where equal, capacities descend, absent ones being 0; and nothing left out has a smaller priority than something returned, or the same and more capacity |
| `Nrf.DiscoveryExcludesExactly` | 5G_O-RAN_SIM/open-digital-platform-2_0/5G_Emulator_API/core_network/nrf.py:320-370 | a discovery returns nothing that some filter excludes, and without a limit all the rest, each reason for exclusion written out |
| `Nrf.DiscoveryIsStable` | 5G_O-RAN_SIM/open-digital-platform-2_0/5G_Emulator_API/core_network/nrf.py:373-377 | within a rank the result is a beginning of the registration order |
| `Nrf.DnnIsIgnored` | 5G_O-RAN_SIM/open-digital-platform-2_0/5G_Emulator_API/core_network/nrf.py:309-379 | the data network name makes no difference to any discovery |
| `Nrf.DiscoveryCount` | 5G_O-RAN_SIM/open-digital-platform-2_0/5G_Emulator_API/core_network/nrf.py:375-377 | how many are returned: zero is no limit, a negative limit counts from the end |
| `Nrf.CheckFilters` | 5G_O-RAN_SIM/open-digital-platform-2_0/5G_Emulator_API/core_network/nrf.py:322-370 | the filters with their nested loops and flags are the quantified rule, and only registered profiles pass |
| `Nrf.FindNfInstances` | 5G_O-RAN_SIM/open-digital-platform-2_0/5G_Emulator_API/core_network/nrf.py:309-379 | filter loop, sort and slice give the specified list |
| `Mme.NextIsNew` | 5G_O-RAN_SIM/open-digital-platform-2_0/5G_Emulator_API/core_network/mme.py:233-249 | the next GUTI was never issued before |
| `Mme.AttachKeeps` | 5G_O-RAN_SIM/open-digital-platform-2_0/5G_Emulator_API/core_network/mme.py:391-472 | an attach keeps: entries name the UE issued to, live UEs are indexed under their current GUTI |
| `Mme.DetachKeeps` | 5G_O-RAN_SIM/open-digital-platform-2_0/5G_Emulator_API/core_network/mme.py:497-520 | so does a detach, found by IMSI or by any GUTI, current or stale |
| `Mme.TauKeeps` | 5G_O-RAN_SIM/open-digital-platform-2_0/5G_Emulator_API/core_network/mme.py:573-603 | so does a tracking area update, with or without a new GUTI |
| `Mme.RunKeeps` | 5G_O-RAN_SIM/open-digital-platform-2_0/5G_Emulator_API/core_network/mme.py:193-284 | so does every run |
| `Mme.NoGutiTwice` | 5G_O-RAN_SIM/open-digital-platform-2_0/5G_Emulator_API/core_network/mme.py:233-249 | no two steps of a run issue the same GUTI |
| `Mme.ScanIsIndex` | 5G_O-RAN_SIM/open-digital-platform-2_0/5G_Emulator_API/core_network/mme.py:534-539 | the service request's scan by M-TMSI finds a UE exactly when the index sends that GUTI to a live UE for which it is current, and finds that UE |
| `Mme.AttachKeepsNoStaleExactly` | 5G_O-RAN_SIM/open-digital-platform-2_0/5G_Emulator_API/core_network/mme.py:424-462 | one attach keeps the index free of stale entries if and only if it finds no context, by IMSI or GUTI |
| `Mme.OutdatedEntryStays` | 5G_O-RAN_SIM/open-digital-platform-2_0/5G_Emulator_API/core_network/mme.py:251-284 | each index entry under a GUTI that its context has left is still there, and still outdated, after any request |
| `Mme.NoStaleExactly` | 5G_O-RAN_SIM/open-digital-platform-2_0/5G_Emulator_API/core_network/mme.py:233-284 | a run ends without a stale entry if and only if none of its attaches found an existing context, whatever detaches and updates came between |
| `Mme.NoStaleMeansOneContextEach` | 5G_O-RAN_SIM/open-digital-platform-2_0/5G_Emulator_API/core_network/mme.py:251-284 | and then no subscriber has two live contexts, and every lookup that finds a context finds a live one |
| `Mme.StaleGutiRevives` | 5G_O-RAN_SIM/open-digital-platform-2_0/5G_Emulator_API/core_network/mme.py:424-462 | a run on which it fails: two attaches, a detach, an attach, and an attach by the first GUTI leave two live contexts of one subscriber |
| `Mme.ServiceAnswersExactly` | 5G_O-RAN_SIM/open-digital-platform-2_0/5G_Emulator_API/core_network/mme.py:529-570 | on every run a service request is accepted exactly for key set 0 and an M-TMSI whose GUTI the index sends to the live UE that has it; cause 10 without such a UE, 9 with another key set |
| `Mme.AttachAnswersExactly` | 5G_O-RAN_SIM/open-digital-platform-2_0/5G_Emulator_API/core_network/mme.py:391-494 | when an attach asks for the identity, and otherwise which context it takes, its new GUTI and fields, and the one change to each index |
| `Mme.DetachAnswersExactly` | 5G_O-RAN_SIM/open-digital-platform-2_0/5G_Emulator_API/core_network/mme.py:497-526 | when a detach finds nobody, and otherwise who leaves and which keys go |
| `Mme.TauAnswersExactly` | 5G_O-RAN_SIM/open-digital-platform-2_0/5G_Emulator_API/core_network/mme.py:573-612 | when an update is rejected, and which kinds replace the GUTI and just its key |
| `Mme.MmeContext.AllocateGuti` | 5G_O-RAN_SIM/open-digital-platform-2_0/5G_Emulator_API/core_network/mme.py:233-249 | the counter goes up and prints as the M-TMSI |
| `Mme.MmeContext.AddUe` | 5G_O-RAN_SIM/open-digital-platform-2_0/5G_Emulator_API/core_network/mme.py:251-260 | the context is entered in every dictionary |
| `Mme.MmeContext.RemoveUe` | 5G_O-RAN_SIM/open-digital-platform-2_0/5G_Emulator_API/core_network/mme.py:272-284 | the context and its current keys leave the dictionaries |
| `Mme.MmeContext.EmmAttachRequest` | 5G_O-RAN_SIM/open-digital-platform-2_0/5G_Emulator_API/core_network/mme.py:391-472 | found by IMSI, else by GUTI, else identity required or a new context; a new GUTI either way |
| `Mme.MmeContext.EmmDetachRequest` | 5G_O-RAN_SIM/open-digital-platform-2_0/5G_Emulator_API/core_network/mme.py:497-526 | the context is marked and removed |
| `Mme.MmeContext.EmmServiceRequest` | 5G_O-RAN_SIM/open-digital-platform-2_0/5G_Emulator_API/core_network/mme.py:529-570 | the scan and the key set check |
| `Mme.MmeContext.EmmTauRequest` | 5G_O-RAN_SIM/open-digital-platform-2_0/5G_Emulator_API/core_network/mme.py:573-615 | a new GUTI for the two updating types, and the current key replaced by it |
| `Ipsec.GenerateKeymat` | 5G_O-RAN_SIM/open-digital-platform-2_0/5G_Emulator_API/core_network/ipsec.py:616-626 | the loop computes the prf+ stream, ends after ceil(length / 8) rounds, and fails exactly when the length is over 2040 |
| `Ipsec.GenerateChildSaKeys` | 5G_O-RAN_SIM/open-digital-platform-2_0/5G_Emulator_API/core_network/ipsec.py:601-637 | the four keys cut from that stream, or that failure |
| `Ipsec.StreamIsPrefix` | 5G_O-RAN_SIM/open-digital-platform-2_0/5G_Emulator_API/core_network/ipsec.py:619-626 | a shorter stream is the beginning of a longer one |
| `Ipsec.StreamIsChained` | 5G_O-RAN_SIM/open-digital-platform-2_0/5G_Emulator_API/core_network/ipsec.py:620-627 | each 32-byte block of the stream is the prf of the block before it, the seed and its number |
| `Ipsec.KeysAreConsecutive` | 5G_O-RAN_SIM/open-digital-platform-2_0/5G_Emulator_API/core_network/ipsec.py:628-637 | four consecutive keys of the length asked for, together the first bytes of the stream, with no round too many |
| `Ipsec.CleanUpRemovesExactly` | 5G_O-RAN_SIM/open-digital-platform-2_0/5G_Emulator_API/core_network/ipsec.py:542-552 | exactly the entries with one of the child's keys go |
| `Ipsec.CleanUpUndoesInstall` | 5G_O-RAN_SIM/open-digital-platform-2_0/5G_Emulator_API/core_network/ipsec.py:314-419 | installing and cleaning up restores both lists, order included, exactly when none of the keys was in use |
| `Ipsec.CleanUpSparesOthers` | 5G_O-RAN_SIM/open-digital-platform-2_0/5G_Emulator_API/core_network/ipsec.py:542-552 | cleaning up one child spares another exactly when they share no key |
| `Ipsec.SameSelectorsCollide` | 5G_O-RAN_SIM/open-digital-platform-2_0/5G_Emulator_API/core_network/ipsec.py:519-540 | children with the same selectors share policy keys: cleaning up one takes the other's policies |
| `Ipsec.MirroredEndsAgree` | 5G_O-RAN_SIM/open-digital-platform-2_0/5G_Emulator_API/core_network/ipsec.py:335-395 | mirrored ends agree on addresses, SPI, algorithms and keys in both directions, exactly when one is the initiator or the two directions have the same keys |
| `Ipsec.MirroredPoliciesFit` | 5G_O-RAN_SIM/open-digital-platform-2_0/5G_Emulator_API/core_network/ipsec.py:355-400 | the outbound policy of one end and the inbound policy of the other have the same networks, protocol and template if and only if the selectors are exchanged and the protocol is the same; at one end the networks are exchanged |
| `Ipsec.InstalledProtects` | 5G_O-RAN_SIM/open-digital-platform-2_0/5G_Emulator_API/core_network/ipsec.py:324-403 | what is installed: the inbound policy from the remote to the local selector and the outbound one back, each with the template of the state beside it, and states with the ends, keys, algorithms and encapsulation of their direction |
| `Ipsec.XfrmManager.ApplyXfrmRule` | 5G_O-RAN_SIM/open-digital-platform-2_0/5G_Emulator_API/core_network/ipsec.py:314-419 | two states and two policies appended, in order, to the tables and to the child's lists; the added entries protect the child as the member above says |
| `Ipsec.XfrmManager.DeleteXfrmState` | 5G_O-RAN_SIM/open-digital-platform-2_0/5G_Emulator_API/core_network/ipsec.py:513-517 | the rebuilt list is the old one without the key |
| `Ipsec.XfrmManager.DeleteXfrmPolicy` | 5G_O-RAN_SIM/open-digital-platform-2_0/5G_Emulator_API/core_network/ipsec.py:535-540 | the same for policies, keyed without SPI or interface |
| `Ipsec.XfrmManager.CleanupChildSa` | 5G_O-RAN_SIM/open-digital-platform-2_0/5G_Emulator_API/core_network/ipsec.py:542-552 | the two loops remove everything with the child's keys and clear its lists |
| `Ipsec.InstallAndCleanUp` | 5G_O-RAN_SIM/open-digital-platform-2_0/5G_Emulator_API/core_network/ipsec.py:314-552 | through the objects: the tables come back exactly when the keys were unused |
| `GapCompressor.Compress` | 5G_O-RAN_SIM/open-digital-platform-2_0/5G_Emulator_API/core_network/amf-test-visualize.py:45-70 | every adjusted time is the original less the compression so far; the regions and the total are those of the gaps over the threshold |
| `GapCompressor.RegionsAccountForCompression` | 5G_O-RAN_SIM/open-digital-platform-2_0/5G_Emulator_API/core_network/amf-test-visualize.py:55-63 | the recorded regions add up to the total compression |
| `GapCompressor.RegionsAreTheLongPauses` | 5G_O-RAN_SIM/open-digital-platform-2_0/5G_Emulator_API/core_network/amf-test-visualize.py:48-66 | as many regions as pauses of more than 500 ms, and the k-th region lies, 500 ms wide, between the two adjusted events around the k-th such pause and remembers where the pause was |
| `GapCompressor.LongPausesExactly` | 5G_O-RAN_SIM/open-digital-platform-2_0/5G_Emulator_API/core_network/amf-test-visualize.py:44-49 | those pauses are listed in order, each exactly when it is longer than 500 ms of the original nanoseconds |
| `GapCompressor.DurationsAndGaps` | 5G_O-RAN_SIM/open-digital-platform-2_0/5G_Emulator_API/core_network/amf-test-visualize.py:52-70 | durations stay, and every gap to the previous event becomes the smaller of itself and the threshold |
| `GapCompressor.StartOrderKeptExactly` | 5G_O-RAN_SIM/open-digital-platform-2_0/5G_Emulator_API/core_network/amf-test-visualize.py:41-66 | starts never move apart, whatever the durations, and none change places if and only if no cut gap is measured from an event that ends more than the threshold before it starts |
| `GapCompressor.ApartExactly` | 5G_O-RAN_SIM/open-digital-platform-2_0/5G_Emulator_API/core_network/amf-test-visualize.py:52-66 | for events sorted by start that do not end before they start: every two stay as far apart as before or at least the threshold apart, if and only if before every gap that is cut no earlier event outlasts the one the gap is measured from |
| `GapCompressor.ApartStaysApart` | 5G_O-RAN_SIM/open-digital-platform-2_0/5G_Emulator_API/core_network/amf-test-visualize.py:52-66 | so under that condition events that were apart stay apart |
| `GapCompressor.LongEventRunsIntoLater` | 5G_O-RAN_SIM/open-digital-platform-2_0/5G_Emulator_API/core_network/amf-test-visualize.py:52 | an event that outlasts the next can overlap a third that began long after it |
| `Chf.SessionIsSum` | 5G_O-RAN_SIM/open-digital-platform-2_0/5G_Emulator_API/core_network/chf.py:412-436 | totals are the sums over everything reported, the charge is the rated sum, the groups together have the charge of what was reported once tracked |
| `Chf.GroupsHoldTrackedUsage` | 5G_O-RAN_SIM/open-digital-platform-2_0/5G_Emulator_API/core_network/chf.py:434-436 | each rating group has exactly its own tracked units and charge |
| `Chf.GroupsNeverExceedTotal` | 5G_O-RAN_SIM/open-digital-platform-2_0/5G_Emulator_API/core_network/chf.py:432-436 | with no negative usage the groups add up to at most the charge, short by what came before its grant, and to all of it when every grant came first |
| `Chf.SessionFollowsHistory` | 5G_O-RAN_SIM/open-digital-platform-2_0/5G_Emulator_API/core_network/chf.py:247-362 | on every run each session is what its own history makes of a new one |
| `Chf.ReleaseRecordsTotals` | 5G_O-RAN_SIM/open-digital-platform-2_0/5G_Emulator_API/core_network/chf.py:347-354 | the record of a release carries the sums over the whole history, that release included |
| `Chf.EveryRecordCarriesItsHistory` | 5G_O-RAN_SIM/open-digital-platform-2_0/5G_Emulator_API/core_network/chf.py:347-362 | every record of a run was written by a release of it and carries the rated sum of everything reported for its session up to and with that release, whatever came later |
| `Chf.ShownUsageExtendsRecord` | 5G_O-RAN_SIM/open-digital-platform-2_0/5G_Emulator_API/core_network/chf.py:438-462 | with fresh session ids the usage that a record shows at the end is the sum over a history that begins with the one it charges for |
| `Chf.RecordsShowLaterUsage` | 5G_O-RAN_SIM/open-digital-platform-2_0/5G_Emulator_API/core_network/chf.py:438-462 | a record shares its session's usage: a later request changes the usage it shows exactly if it reports any, while its charge and groups stay |
| `Chf.SessionIsAccount` | 5G_O-RAN_SIM/open-digital-platform-2_0/5G_Emulator_API/core_network/chf.py:247-436 | on every run a session's subscriber, totals, groups and status are those of the requests for it, and its charge is the price list over them: 0.05 a minute for group 2, and for a megabyte 0.02 in group 3, 0.015 in 4, 0.005 in 5 and 0.01 in any other |
| `Chf.SessionOfOneGroup` | 5G_O-RAN_SIM/open-digital-platform-2_0/5G_Emulator_API/core_network/chf.py:412-436 | with usage of one group alone the charge is the session's own total time or volume at that group's rate |
| `Chf.GroupsArePriced` | 5G_O-RAN_SIM/open-digital-platform-2_0/5G_Emulator_API/core_network/chf.py:434-436 | each rating group charges for its own used units, voice for its time, at its rate |
| `Chf.RecordsArePriced` | 5G_O-RAN_SIM/open-digital-platform-2_0/5G_Emulator_API/core_network/chf.py:327-355 | each record of a run has the price of all usage reported up to its release, the groups as they then were, and an end time exactly when there was a release before |
| `Chf.AnswersExactly` | 5G_O-RAN_SIM/open-digital-platform-2_0/5G_Emulator_API/core_network/chf.py:364-410 | who gets an answer, and each unit of it: the group's time and volume quota, or the limit exactly when a known balance is not positive |
| `Chf.CHF.ProcessQuotaRequest` | 5G_O-RAN_SIM/open-digital-platform-2_0/5G_Emulator_API/core_network/chf.py:364-410 | a quota and a tracked group, or the limit when the balance is not positive |
| `Chf.CHF.RecordUsage` | 5G_O-RAN_SIM/open-digital-platform-2_0/5G_Emulator_API/core_network/chf.py:412-436 | the loop over the containers of one group |
| `Chf.CHF.CreateChargingSession` | 5G_O-RAN_SIM/open-digital-platform-2_0/5G_Emulator_API/core_network/chf.py:247-288 | a new session with its tracked groups; usage in the first request is not recorded |
| `Chf.CHF.UpdateChargingSession` | 5G_O-RAN_SIM/open-digital-platform-2_0/5G_Emulator_API/core_network/chf.py:290-325 | usage recorded, then quota granted, group by group; closed sessions too |
| `Chf.CHF.ReleaseChargingSession` | 5G_O-RAN_SIM/open-digital-platform-2_0/5G_Emulator_API/core_network/chf.py:327-362 | final usage recorded, the record written, the session closed |
| `Harness.SequentialFollowsEdges` | harness/runtime/taxonomy_graph.py:86-100 | whatever the nodes do, the sequential runner ends in the same state or error as following the declared edges |
| `Harness.Invoke` | harness/runtime/taxonomy_graph.py:86-100 | the runner's loops do just that |
| `Harness.GraphEqualsWalker` | harness/runtime/walker.py:119-139 | for an RCA that agrees with the taxonomy and is not ambiguous, the graph ends with the walker's audit event, or its error |
| `Harness.GraphRefuses` | harness/runtime/taxonomy_graph.py:268-305 | without a candidate, with an unknown match or another layer, and only then, the graph stops with that error before it routes |
| `Harness.WalkerActsWhereGraphDoes` | harness/runtime/walker.py:119-139 | when the walker emits an audit event, the graph ends with the same one if and only if the taxonomy knows the match and gives it the layer that the RCA claims; else the graph fails |
| `Harness.GraphActsWhereWalkerDoes` | harness/runtime/taxonomy_graph.py:289-305 | when the graph emits one, the walker ends with the same if and only if the RCA names a layer at all |
| `Harness.WalkerIgnoresTaxonomy` | harness/runtime/router.py:88-90 | a claimed service fault whose match the taxonomy does not know always stops the graph; the walker acts on it if and only if stub and policy let any service fault through |
| `Harness.WalkerActsAlone` | harness/runtime/router.py:88-90 | such tables and such an RCA, with an empty taxonomy and an audit event of the walker |
| `Harness.AmbiguousNeverActs` | harness/runtime/taxonomy_graph.py:216-233 | with any resolver the ambiguous path ends in the resolver's error or a blocked state, with its hint, three stages and neither proposal nor audit event |
| `Harness.GraphAuditIsSafe` | harness/runtime/taxonomy_graph.py:235-252 | every audit event of the graph is about a dry run that waits for a human, has passed every gate, and is about the layer that the taxonomy gives |
| `Harness.WalkerAnswersExactly` | harness/runtime/walker.py:119-139 | the walker's outcome, whole: the error of the first thing wrong in the order in which it looks, with the exact condition of each, or an audit event of which every field is said |
| `Harness.LastEntryWins` | harness/runtime/taxonomy_graph.py:255-265 | the loaded taxonomy has every id of the file, with its last entry |
| `Harness.LoadTaxonomyFile` | harness/runtime/taxonomy_graph.py:255-265 | the nested loops build that dictionary |
| `Harness.RouteRca` | harness/runtime/router.py:48-105 | the proposal object filled branch by branch, or the error of the branch |
| `Harness.AddCompanion` | harness/runtime/router.py:178-246 | a companion intent exactly for node firmware that reaches a node, with the partner's answer |
| `Harness.SandboxSimulation` | harness/runtime/walker.py:79-96 | the stub's verdict is written into the proposal, or there is none |
| `Harness.CheckGates` | harness/runtime/guardrail.py:64-98 | the first gate that holds the proposal back |
| `Harness.Evaluate` | harness/runtime/guardrail.py:48-121 | the writes into the proposal passed in, and an audit event that holds that very object |
| `Harness.Walk` | harness/runtime/walker.py:119-139 | one proposal object from the router to the audit event |

## Left out

- Services around the state: HTTP routing and validation, NRF registration, tracing, metrics, logging, and the
  request counters that nothing reads; they add no state that the properties depend on.
- Concurrency: the cache's lock and the services' event loop make each call atomic, and the model takes each
  call as one step.
- AES, SHA-256 and HMAC bodies: only their output lengths are used; nothing is claimed about conformance to
  the real Milenage functions or the order of keys in section 2.17 of RFC 7296.
- Hexadecimal texts of keys and of the PLMN in the HSS are byte strings; malformed ones, which make the
  original raise, are not modelled.
- Ties: with equal time stamps the cache evicts the first oldest key of the dictionary; `Set` allows any.
- Prefix texts: an IPv6 prefix is its counter; the text made of it and its range are not modelled.
- PGW modify-bearer, PCC rules, usage reports and charging: they touch neither indexes nor allocators.
- MRF mute, deaf, announcement, playback and SDP operations: they touch no port.
- BSF list fields of a patch (routes, extra prefixes, MAC addresses): copied over, never looked at. The
  original hands out the stored binding itself; the model hands out its value.
- IMS MAR and its vectors, user profiles and push-profile requests: no effect on the registration. A
  subscription changed from outside its requests is not modelled.
- NSSF mapping requests, PDU session selection and availability: only the branch to the first is kept
  (`MappingRequest`).
- NRF registration and tokens; the profiles are taken in dictionary order.
- MME S1AP ids, EBIs and IP addresses: `len`-based, so not unique, and nothing is claimed of them. The GUTI
  key text is its four parts, so two part lists that print alike are kept apart.
- Kernel mode of the XFRM manager, XFRM interfaces, and the random SPIs of a generated child SA.
- Floating point: charging and the timeline are over exact rationals; time stamps of sessions are left out.
- The order of events with equal start times in the timeline: any order sorted by start is allowed.
- LoadTaxonomyFile: does not record the name of the section on each entry, because no stage reads it.
- Harness YAML and JSON files, the O2 IMS stub, the resolver's language model: tables and functions as
  parameters. A blast radius with only some of its three numbers is not modelled. LangGraph itself is taken
  to merge a node's update into the state as the sequential runner does; its checkpoints are not modelled.
- pcf, icscf, pcscf, n3iwf, ausf, amf, nef, udm and udr services, and the CSV cache: simpler relatives of
  what is here.
