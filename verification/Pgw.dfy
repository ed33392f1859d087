/** The PDN gateway's session, bearer, tunnel id and address bookkeeping
    (5G_Emulator_API/core_network/pgw.py). A session is one object reached through three
    dictionaries; the facts about bearers and addresses are stated on what those objects hold. */
module Pgw {
  import opened Common
  import Hex

  // Identifiers that are only ever compared (uuids, random control tunnel ids, IMSIs) are numbers.
  type Id = nat

  datatype PdnType = IPv4 | IPv6 | IPv4v6

  // An address from an IPv4 pool, or the index that names a /64 prefix of an IPv6 pool.
  datatype Address = V4(addr: nat) | V6Prefix(index: nat)

  datatype IpPool = IpPool(network: nat, prefixLen: nat, pdnType: PdnType, taken: seq<Address>)

  datatype ApnConfig = ApnConfig(pdnType: PdnType, ipPoolId: string, qci: int, arpPriority: int)

  // s5uTeid is the number whose eight-digit print-out (Hex.Format08) is the tunnel id.
  datatype Bearer = Bearer(ebi: int, qci: int, arpPriority: int, s5uTeid: nat)

  // A field left out of the request takes its default.
  datatype BearerContext = BearerContext(ebi: Option<int>, qci: Option<int>, arpPriority: Option<int>)

  datatype RequestedPdn = Unstated | Stated(pdnType: PdnType) | Unparsable

  datatype CreateSessionRequest = CreateSessionRequest(
    imsi: Id, apn: string, pdn: RequestedPdn, contexts: seq<BearerContext>)

  datatype Cause = RequestAccepted | AddressesOccupied | ContextNotFound | LinkedBearerNotFound
    | NoResources | SemanticError | BadRequest

  const DEFAULT_POOL := "pool-ipv4-internet"
  const IPV6_POOL := "pool-ipv6"
  const DEFAULT_EBI := 5
  const LAST_EBI := 15

  // ---------- bearers ----------

  type Bearers = map<Id, seq<Bearer>>

  ghost function Total(m: Bearers): nat
    decreases |m|
  {
    if m == map[] then 0 else
      var id :| id in m;
      assert (m - {id}).Keys == m.Keys - {id};
      |m[id]| + Total(m - {id})
  }

  lemma {:induction false} TotalWithout(m: Bearers, id: Id)
    requires id in m
    ensures Total(m) == |m[id]| + Total(m - {id})
    decreases |m|
  {
    var first :| first in m && Total(m) == |m[first]| + Total(m - {first});
    if first == id {
    } else {
      assert (m - {first}).Keys == m.Keys - {first};
      assert (m - {id}).Keys == m.Keys - {id};
      TotalWithout(m - {first}, id);
      TotalWithout(m - {id}, first);
      assert m - {first} - {id} == m - {id} - {first};
    }
  }

  lemma TotalWith(m: Bearers, id: Id, bs: seq<Bearer>)
    ensures Total(m[id := bs]) == |bs| + if id in m then Total(m) - |m[id]| else Total(m)
  {
    TotalWithout(m[id := bs], id);
    if id in m {
      TotalWithout(m, id);
      assert m[id := bs] - {id} == m - {id};
    } else {
      assert m[id := bs] - {id} == m;
    }
  }

  ghost predicate TeidsDistinct(m: Bearers) {
    forall p, i, q, j | p in m && q in m && 0 <= i < |m[p]| && 0 <= j < |m[q]| && m[p][i].s5uTeid == m[q][j].s5uTeid ::
      p == q && i == j
  }

  ghost predicate TeidsIssued(m: Bearers, counter: nat) {
    forall p, i | p in m && 0 <= i < |m[p]| :: 1 <= m[p][i].s5uTeid <= counter
  }

  predicate DistinctEbis(bs: seq<Bearer>) {
    forall i, j | 0 <= i < j < |bs| :: bs[i].ebi != bs[j].ebi
  }

  ghost predicate EbisDistinct(m: Bearers) { forall p | p in m :: DistinctEbis(m[p]) }

  function RequestedEbi(bc: BearerContext): int { if bc.ebi.Some? then bc.ebi.value else DEFAULT_EBI }

  /** The i-th bearer of a new session takes the i-th tunnel id after the counter. */
  function NewBearers(contexts: seq<BearerContext>, config: ApnConfig, counter: nat): seq<Bearer> {
    seq(|contexts|, i requires 0 <= i < |contexts| =>
      Bearer(RequestedEbi(contexts[i]),
             if contexts[i].qci.Some? then contexts[i].qci.value else config.qci,
             if contexts[i].arpPriority.Some? then contexts[i].arpPriority.value else config.arpPriority,
             counter + 1 + i))
  }

  /** Each bearer has what its context asks for, else what the APN has configured, and the EBI 5 if none is
      asked for. */
  ghost predicate AsAsked(contexts: seq<BearerContext>, config: ApnConfig, counter: nat, bearers: seq<Bearer>) {
    && |bearers| == |contexts|
    && forall i | 0 <= i < |bearers| ::
         && bearers[i].s5uTeid == counter + 1 + i
         && (contexts[i].ebi == Some(bearers[i].ebi) || (contexts[i].ebi == None && bearers[i].ebi == 5))
         && (contexts[i].qci == Some(bearers[i].qci) || (contexts[i].qci == None && bearers[i].qci == config.qci))
         && (contexts[i].arpPriority == Some(bearers[i].arpPriority) ||
             (contexts[i].arpPriority == None && bearers[i].arpPriority == config.arpPriority))
  }

  lemma NewBearersAreAsAsked(contexts: seq<BearerContext>, config: ApnConfig, counter: nat)
    ensures AsAsked(contexts, config, counter, NewBearers(contexts, config, counter))
  {}

  lemma TeidsAfterCreate(m: Bearers, id: Id, contexts: seq<BearerContext>, config: ApnConfig, counter: nat)
    requires id !in m && TeidsDistinct(m) && TeidsIssued(m, counter)
    ensures var m' := m[id := NewBearers(contexts, config, counter)];
            TeidsDistinct(m') && TeidsIssued(m', counter + |contexts|)
  {}

  /** The printed tunnel ids of live bearers are distinct too. */
  lemma TeidTextsDistinct(m: Bearers, p: Id, i: nat, q: Id, j: nat)
    requires TeidsDistinct(m) && p in m && q in m && i < |m[p]| && j < |m[q]|
    ensures Hex.Format08(m[p][i].s5uTeid) == Hex.Format08(m[q][j].s5uTeid) ==> p == q && i == j
  {
    Hex.RoundTrip(m[p][i].s5uTeid);
    Hex.RoundTrip(m[q][j].s5uTeid);
  }

  lemma BearersAfterRemove(m: Bearers, id: Id, counter: nat)
    requires id in m && TeidsDistinct(m) && TeidsIssued(m, counter)
    ensures TeidsDistinct(m - {id}) && TeidsIssued(m - {id}, counter)
    ensures Total(m - {id}) == Total(m) - |m[id]|
  {
    TotalWithout(m, id);
  }

  lemma TeidsAfterRemoveAt(m: Bearers, id: Id, i: nat, counter: nat)
    requires id in m && i < |m[id]| && TeidsDistinct(m) && TeidsIssued(m, counter)
    ensures var m' := m[id := m[id][..i] + m[id][i + 1..]];
            TeidsDistinct(m') && TeidsIssued(m', counter) && (EbisDistinct(m) ==> EbisDistinct(m'))
  {
    var m' := m[id := m[id][..i] + m[id][i + 1..]];
    assert TeidsDistinct(m') by { TeidsDistinctWithoutOne(m, m', id, i); }
    assert TeidsIssued(m', counter) by {
      hide TeidsDistinct, EbisDistinct;
      assert forall j | 0 <= j < |m'[id]| :: m'[id][j] == m[id][if j < i then j else j + 1];
    }
    assert EbisDistinct(m) ==> EbisDistinct(m') by {
      hide TeidsDistinct, TeidsIssued;
      assert forall j | 0 <= j < |m'[id]| :: m'[id][j] == m[id][if j < i then j else j + 1];
    }
    hide *;
  }

  lemma TeidsDistinctWithoutOne(m: Bearers, m': Bearers, id: Id, i: nat)
    requires id in m && i < |m[id]| && TeidsDistinct(m) && m' == m[id := m[id][..i] + m[id][i + 1..]]
    ensures TeidsDistinct(m')
  {
    forall p, k, q, j |
      p in m' && q in m' && 0 <= k < |m'[p]| && 0 <= j < |m'[q]| && m'[p][k].s5uTeid == m'[q][j].s5uTeid
      ensures p == q && k == j
    {
      var k', j' := if p == id && k >= i then k + 1 else k, if q == id && j >= i then j + 1 else j;
      assert m'[p][k] == m[p][k'] && m'[q][j] == m[q][j'];
    }
  }

  /** A created session's EBIs are distinct exactly when the request asked for distinct ones. */
  lemma EbisAfterCreate(m: Bearers, id: Id, contexts: seq<BearerContext>, config: ApnConfig, counter: nat)
    requires EbisDistinct(m)
    ensures EbisDistinct(m[id := NewBearers(contexts, config, counter)]) <==>
            forall i, j | 0 <= i < j < |contexts| :: RequestedEbi(contexts[i]) != RequestedEbi(contexts[j])
  {
    var bs := NewBearers(contexts, config, counter);
    assert m[id := bs][id] == bs;
    assert forall i | 0 <= i < |bs| :: bs[i].ebi == RequestedEbi(contexts[i]);
  }

  function MaxEbi(bs: seq<Bearer>): (m: int)
    requires bs != []
    ensures forall b | b in bs :: b.ebi <= m
    ensures exists b | b in bs :: b.ebi == m
  {
    var last := bs[|bs| - 1];
    if |bs| == 1 then last.ebi else
      var before := MaxEbi(bs[..|bs| - 1]);
      assert forall b | b in bs :: b in bs[..|bs| - 1] || b == last;
      if before < last.ebi then last.ebi else before
  }

  predicate HasEbi(bs: seq<Bearer>, ebi: int) { exists b :: b in bs && b.ebi == ebi }

  lemma TeidsAfterAppend(m: Bearers, id: Id, b: Bearer, counter: nat)
    requires id in m && TeidsDistinct(m) && TeidsIssued(m, counter) && b.s5uTeid == counter + 1
    ensures TeidsDistinct(m[id := m[id] + [b]]) && TeidsIssued(m[id := m[id] + [b]], counter + 1)
    ensures EbisDistinct(m) && (forall a | a in m[id] :: a.ebi < b.ebi) ==> EbisDistinct(m[id := m[id] + [b]])
  {
  }

  // ---------- addresses ----------

  function Pow2(n: nat): (p: nat)
    ensures p >= 1
  {
    if n == 0 then 1 else 2 * Pow2(n - 1)
  }

  /** Addresses 32 - prefix_len bits wide, from the masked network address up. */
  function PoolSize(pool: IpPool): nat
    requires pool.prefixLen <= 32
  {
    Pow2(32 - pool.prefixLen)
  }

  /** The address with its lowest `bits` bits cleared. */
  function Masked(address: nat, bits: nat): nat {
    if bits == 0 then address else 2 * Masked(address / 2, bits - 1)
  }

  function NetworkAddress(pool: IpPool): nat
    requires pool.prefixLen <= 32
  {
    Masked(pool.network, 32 - pool.prefixLen)
  }

  /** Everything an IPv4 pool has handed out when its counter is `counter`, oldest first. */
  ghost function HandedOut(pool: IpPool, counter: nat): seq<Address>
    requires pool.prefixLen <= 32
  {
    FirstAddresses(NetworkAddress(pool), counter)
  }

  ghost function FirstAddresses(network: nat, counter: nat): seq<Address> {
    seq(if counter < 2 then 0 else counter - 2, i requires i >= 0 => V4(network + 2 + i))
  }

  function Counter(counters: map<string, nat>, pool: string): nat { if pool in counters then counters[pool] else 2 }

  ghost predicate AllDistinct<T>(s: seq<T>) { forall i, j | 0 <= i < j < |s| :: s[i] != s[j] }

  // What each pool has answered so far, oldest first.
  type History = map<string, seq<Address>>

  function Past(history: History, pool: string): seq<Address> { if pool in history then history[pool] else [] }

  function Recorded(history: History, pool: string, ip: Option<Address>): History {
    if ip.Some? then history[pool := Past(history, pool) + [ip.value]] else history
  }

  ghost function FirstPrefixes(counter: nat): seq<Address> {
    seq(if counter < 2 then 0 else counter - 2, i requires i >= 0 => V6Prefix(2 + i))
  }

  /** The recorded answers of an IPv4 pool are the addresses below its counter, those of an IPv6 pool the
      prefixes below it. */
  ghost predicate RecordAgrees(pool: IpPool, counter: nat, past: seq<Address>) {
    && (pool.pdnType.IPv4? ==> pool.prefixLen <= 32 && 2 <= counter && past == HandedOut(pool, counter))
    && (pool.pdnType.IPv6? ==> 2 <= counter && past == FirstPrefixes(counter))
  }

  ghost predicate HistoryAgrees(pools: map<string, IpPool>, counters: map<string, nat>, history: History) {
    forall p | p in pools :: RecordAgrees(pools[p], Counter(counters, p), Past(history, p))
  }

  ghost predicate Extends(before: History, after: History) { forall p :: Past(before, p) <= Past(after, p) }

  /** The pools are those of before, but for the addresses they list. */
  ghost predicate SamePools(before: map<string, IpPool>, after: map<string, IpPool>) {
    before.Keys == after.Keys && forall p | p in before :: after[p] == before[p].(taken := after[p].taken)
  }

  /** Pairwise distinct addresses, strictly above network + 1 and below broadcast, at most 2^(32 - prefix) - 3. */
  ghost predicate IssuedSoundly(pool: IpPool, issued: seq<Address>)
    requires pool.prefixLen <= 32
  {
    && AllDistinct(issued) && |issued| <= PoolSize(pool) - 3
    && forall a | a in issued :: a.V4? && NetworkAddress(pool) + 1 < a.addr < NetworkAddress(pool) + PoolSize(pool) - 1
  }

  /** An IPv4 pool agrees with the addresses the live sessions hold from it and the leaked ones. */
  ghost predicate PoolAgrees(pool: IpPool, counter: nat, held: map<Id, Address>, leaked: set<Address>) {
    pool.pdnType.IPv4? && pool.prefixLen <= 32 ==>
      && 2 <= counter && (2 < counter ==> counter < PoolSize(pool))
      && AllDistinct(pool.taken)
      && (forall a | a in pool.taken :: a in held.Values + leaked)
      && (forall a | a in held.Values + leaked :: a in pool.taken && a in HandedOut(pool, counter))
      && (forall p, q | p in held && q in held && held[p] == held[q] :: p == q)
      && held.Values !! leaked
  }

  lemma {:induction false} Pow2Monotone(a: nat, b: nat)
    requires a <= b
    ensures 1 <= Pow2(a) <= Pow2(b)
    decreases b
  {
    if a == b {
    } else {
      Pow2Monotone(a, b - 1);
    }
  }

  /** A pool too small to have a usable address has never answered with one. */
  lemma TinyPoolsStayEmpty(pools: map<string, IpPool>, counters: map<string, nat>, history: History, p: string,
                           held: map<Id, Address>, leaked: set<Address>)
    requires p in pools && pools[p].pdnType.IPv4? && 31 <= pools[p].prefixLen <= 32
    requires HistoryAgrees(pools, counters, history) && PoolAgrees(pools[p], Counter(counters, p), held, leaked)
    ensures Past(history, p) == []
  {
    assert Pow2(1) == 2 * Pow2(0) == 2;
  }

  /** `taken` lists each live session's address and each leaked one once and nothing else, so it
      is exactly the live addresses if and only if nothing leaked. */
  lemma TakenIsHeld(pool: IpPool, counter: nat, held: map<Id, Address>, leaked: set<Address>)
    requires pool.pdnType.IPv4? && pool.prefixLen <= 32 && PoolAgrees(pool, counter, held, leaked)
    ensures |pool.taken| == |held| + |leaked|
    ensures (set a | a in pool.taken) == held.Values <==> leaked == {}
  {
    assert (set a | a in pool.taken) == held.Values + leaked;
    DistinctSize(pool.taken);
    InjectiveSize(held);
    if leaked != {} {
      var a :| a in leaked;
      assert a in (set b | b in pool.taken) && a !in held.Values;
    }
  }

  lemma {:induction false} DistinctSize<T>(s: seq<T>)
    requires AllDistinct(s)
    ensures |set a | a in s| == |s|
  {
    if s == [] {
    } else {
      var rest := s[..|s| - 1];
      DistinctSize(rest);
      assert (set a | a in s) == (set a | a in rest) + {s[|s| - 1]};
      assert s[|s| - 1] !in rest;
    }
  }

  lemma ValuesWith(held: map<Id, Address>, id: Id, a: Address)
    requires id !in held
    ensures held[id := a].Values == held.Values + {a}
  {
    forall b | b in held.Values + {a} ensures b in held[id := a].Values {
      if b == a {
        assert held[id := a][id] == a;
      } else {
        var p :| p in held && held[p] == b;
        assert held[id := a][p] == b;
      }
    }
  }

  lemma {:induction false} InjectiveSize(held: map<Id, Address>)
    requires forall p, q | p in held && q in held && held[p] == held[q] :: p == q
    ensures |held.Values| == |held|
    decreases |held|
  {
    if held == map[] {
      assert held.Values == {};
    } else {
      var id :| id in held;
      var rest := held - {id};
      assert rest.Keys == held.Keys - {id};
      InjectiveSize(rest);
      assert held.Values == rest.Values + {held[id]} by {
        ValuesWith(rest, id, held[id]);
        assert held == rest[id := held[id]];
      }
      assert held[id] !in rest.Values;
    }
  }

  function WithoutAddress(s: seq<Address>, a: Address): seq<Address> {
    if s == [] then [] else if s[0] == a then s[1..] else [s[0]] + WithoutAddress(s[1..], a)
  }

  lemma {:induction false} WithoutMember(s: seq<Address>, a: Address)
    requires AllDistinct(s)
    ensures AllDistinct(WithoutAddress(s, a))
    ensures forall b :: b in WithoutAddress(s, a) <==> b in s && b != a
  {
    if s == [] {
    } else {
      WithoutMember(s[1..], a);
      assert s[0] !in s[1..];
    }
  }

  lemma AgreesAfterAllocate(pool: IpPool, counter: nat, held: map<Id, Address>, leaked: set<Address>, id: Id)
    requires PoolAgrees(pool, counter, held, leaked) && id !in held
    requires pool.pdnType.IPv4? && pool.prefixLen <= 32 && counter < PoolSize(pool) - 1
    ensures var a := V4(NetworkAddress(pool) + counter);
            && a !in HandedOut(pool, counter)
            && HandedOut(pool, counter + 1) == HandedOut(pool, counter) + [a]
            && PoolAgrees(pool.(taken := pool.taken + [a]), counter + 1, held[id := a], leaked)
  {
    var a := V4(NetworkAddress(pool) + counter);
    var out := HandedOut(pool, counter);
    assert HandedOut(pool, counter + 1) == out + [a];
    assert a !in pool.taken;
    ValuesWith(held, id, a);
    assert NetworkAddress(pool.(taken := pool.taken + [a])) == NetworkAddress(pool);
  }

  lemma WithoutHolder(held: map<Id, Address>, id: Id)
    requires id in held && forall p, q | p in held && q in held && held[p] == held[q] :: p == q
    ensures (held - {id}).Values == held.Values - {held[id]}
  {
    forall b | b in held.Values && b != held[id] ensures b in (held - {id}).Values {
      var p :| p in held && held[p] == b;
      assert p in held - {id};
    }
  }

  lemma AgreesAfterRelease(pool: IpPool, counter: nat, held: map<Id, Address>, leaked: set<Address>, id: Id)
    requires PoolAgrees(pool, counter, held, leaked) && id in held && pool.pdnType.IPv4? && pool.prefixLen <= 32
    ensures PoolAgrees(pool.(taken := WithoutAddress(pool.taken, held[id])), counter, held - {id}, leaked)
  {
    WithoutHolder(held, id);
    WithoutMember(pool.taken, held[id]);
    assert NetworkAddress(pool.(taken := WithoutAddress(pool.taken, held[id]))) == NetworkAddress(pool);
  }

  lemma AgreesAfterLeak(pool: IpPool, counter: nat, held: map<Id, Address>, leaked: set<Address>, id: Id)
    requires PoolAgrees(pool, counter, held, leaked) && id in held && pool.pdnType.IPv4? && pool.prefixLen <= 32
    ensures PoolAgrees(pool, counter, held - {id}, leaked + {held[id]})
  {
    WithoutHolder(held, id);
  }

  /** What one allocation does to the pools: the address, the pools and the counters after it. */
  function Allocate(pools: map<string, IpPool>, counters: map<string, nat>, id: string):
    (Option<Address>, map<string, IpPool>, map<string, nat>)
    requires forall p | p in pools && pools[p].pdnType.IPv4? :: pools[p].prefixLen <= 32
  {
    if id !in pools then (None, pools, counters) else
    var pool, counter := pools[id], Counter(counters, id);
    match pool.pdnType
    case IPv4 =>
      if counter >= PoolSize(pool) - 1 then (None, pools, counters[id := counter]) else
      var a := V4(NetworkAddress(pool) + counter);
      (Some(a), pools[id := pool.(taken := pool.taken + [a])], counters[id := counter + 1])
    case IPv6 => (Some(V6Prefix(counter)), pools, counters[id := counter + 1])
    case IPv4v6 => (None, pools, counters[id := counter])
  }

  lemma OneMoreAddress(network: nat, counter: nat)
    requires counter >= 2
    ensures FirstAddresses(network, counter + 1) == FirstAddresses(network, counter) + [V4(network + counter)]
  {}

  lemma OneMorePrefix(counter: nat)
    requires counter >= 2
    ensures FirstPrefixes(counter + 1) == FirstPrefixes(counter) + [V6Prefix(counter)]
  {}

  lemma AllocateRecords(pools: map<string, IpPool>, counters: map<string, nat>, history: History, id: string)
    requires forall p | p in pools && pools[p].pdnType.IPv4? :: pools[p].prefixLen <= 32
    requires id in pools && RecordAgrees(pools[id], Counter(counters, id), Past(history, id))
    ensures var (ip, pools', counters') := Allocate(pools, counters, id);
            id in pools' && RecordAgrees(pools'[id], Counter(counters', id), Past(Recorded(history, id, ip), id))
  {
    hide PoolSize, Masked, FirstAddresses, FirstPrefixes;
    if pools[id].pdnType.IPv4? { OneMoreAddress(NetworkAddress(pools[id]), Counter(counters, id)); }
    if pools[id].pdnType.IPv6? { OneMorePrefix(Counter(counters, id)); }
    hide NetworkAddress;
  }

  /** Every answer is recorded, and the record stays the addresses below the counter. */
  lemma HistoryThroughAllocate(pools: map<string, IpPool>, counters: map<string, nat>, history: History, id: string)
    requires forall p | p in pools && pools[p].pdnType.IPv4? :: pools[p].prefixLen <= 32
    requires HistoryAgrees(pools, counters, history)
    ensures var (ip, pools', counters') := Allocate(pools, counters, id);
            HistoryAgrees(pools', counters', Recorded(history, id, ip))
  {
    var (ip, pools', counters') := Allocate(pools, counters, id);
    if id in pools {
      AllocateRecords(pools, counters, history, id);
      forall p | p in pools && p != id
        ensures pools'[p] == pools[p] && Counter(counters', p) == Counter(counters, p)
        ensures Past(Recorded(history, id, ip), p) == Past(history, p)
      {}
      assert pools'.Keys == pools.Keys;
    }
    hide Allocate, RecordAgrees, Recorded, Past, Counter;
  }

  lemma AllocateExtends(pools: map<string, IpPool>, counters: map<string, nat>, history: History, id: string)
    requires forall p | p in pools && pools[p].pdnType.IPv4? :: pools[p].prefixLen <= 32
    ensures var (ip, pools', counters') := Allocate(pools, counters, id);
            && Extends(history, Recorded(history, id, ip)) && SamePools(pools, pools')
            && (forall p | p in pools' && pools'[p].pdnType.IPv4? :: pools'[p].prefixLen <= 32)
  {
    hide PoolSize, NetworkAddress;
  }

  lemma AgreesThroughAllocate(pools: map<string, IpPool>, counters: map<string, nat>, id: string, p: string,
                              held: map<Id, Address>, leaked: set<Address>, session: Id)
    requires forall q | q in pools && pools[q].pdnType.IPv4? :: pools[q].prefixLen <= 32
    requires p in pools && PoolAgrees(pools[p], Counter(counters, p), held, leaked) && session !in held
    ensures var (ip, pools', counters') := Allocate(pools, counters, id);
            && pools'.Keys == pools.Keys && pools'[p].pdnType == pools[p].pdnType &&
               pools'[p].prefixLen == pools[p].prefixLen
            && PoolAgrees(pools'[p], Counter(counters', p),
                          if p == id && ip.Some? then held[session := ip.value] else held, leaked)
  {
    if p == id && pools[p].pdnType.IPv4? && Counter(counters, p) < PoolSize(pools[p]) - 1 {
      AgreesAfterAllocate(pools[p], Counter(counters, p), held, leaked, session);
    }
  }

  class PgwSession {
    const sessionId: Id
    const imsi: Id
    const apn: string
    const pdnType: PdnType
    const ipAddress: Option<Address>
    const ipv6Prefix: Option<Address>
    const s5cTeid: Id
    var bearers: seq<Bearer>

    constructor (sessionId: Id, s5cTeid: Id, imsi: Id, apn: string, pdnType: PdnType,
                 ipAddress: Option<Address>, ipv6Prefix: Option<Address>, bearers: seq<Bearer>)
      ensures this.sessionId == sessionId && this.s5cTeid == s5cTeid && this.imsi == imsi && this.apn == apn
      ensures this.pdnType == pdnType && this.ipAddress == ipAddress && this.ipv6Prefix == ipv6Prefix &&
              this.bearers == bearers
    {
      this.sessionId, this.s5cTeid, this.imsi, this.apn := sessionId, s5cTeid, imsi, apn;
      this.pdnType, this.ipAddress, this.ipv6Prefix, this.bearers := pdnType, ipAddress, ipv6Prefix, bearers;
    }
  }

  // ---------- the indexes ----------

  ghost predicate TeidIndex(byId: map<Id, PgwSession>, byTeid: map<Id, PgwSession>) {
    && (forall id | id in byId ::
          byId[id].sessionId == id && byId[id].s5cTeid in byTeid && byTeid[byId[id].s5cTeid] == byId[id])
    && (forall t | t in byTeid ::
          byTeid[t].s5cTeid == t && byTeid[t].sessionId in byId && byId[byTeid[t].sessionId] == byTeid[t])
  }

  ghost predicate ImsiIndex(byId: map<Id, PgwSession>, byImsi: map<Id, seq<PgwSession>>) {
    && (forall id | id in byId ::
          byId[id].sessionId == id && byId[id].imsi in byImsi && byId[id] in byImsi[byId[id].imsi])
    && (forall i | i in byImsi :: AllDistinct(byImsi[i]))
    && (forall i, s | i in byImsi && s in byImsi[i] :: s.imsi == i && s.sessionId in byId && byId[s.sessionId] == s)
  }

  function Listed(byImsi: map<Id, seq<PgwSession>>, imsi: Id): seq<PgwSession> {
    if imsi in byImsi then byImsi[imsi] else []
  }

  lemma ImsiIndexAfterAdd(byId: map<Id, PgwSession>, byImsi: map<Id, seq<PgwSession>>, s: PgwSession)
    requires ImsiIndex(byId, byImsi) && s.sessionId !in byId
    ensures ImsiIndex(byId[s.sessionId := s], byImsi[s.imsi := Listed(byImsi, s.imsi) + [s]])
  {
    assert s !in Listed(byImsi, s.imsi);
  }

  /** The sessions of a list other than the one with the given id. */
  function Others(list: seq<PgwSession>, id: Id): seq<PgwSession> {
    if list == [] then []
    else if list[0].sessionId == id then Others(list[1..], id)
    else [list[0]] + Others(list[1..], id)
  }

  lemma {:induction false} OthersMember(list: seq<PgwSession>, id: Id, s: PgwSession)
    ensures s in Others(list, id) <==> s in list && s.sessionId != id
  {
    if list == [] {
    } else {
      OthersMember(list[1..], id, s);
    }
  }

  lemma {:induction false} OthersNoDuplicates(list: seq<PgwSession>, id: Id)
    requires AllDistinct(list)
    ensures AllDistinct(Others(list, id))
  {
    if list == [] {
    } else {
      OthersNoDuplicates(list[1..], id);
      OthersMember(list[1..], id, list[0]);
    }
  }

  lemma ImsiIndexAfterRemove(byId: map<Id, PgwSession>, byImsi: map<Id, seq<PgwSession>>, s: PgwSession)
    requires ImsiIndex(byId, byImsi) && s.sessionId in byId && byId[s.sessionId] == s
    ensures s.imsi in byImsi && ImsiIndex(byId - {s.sessionId}, byImsi[s.imsi := Others(byImsi[s.imsi], s.sessionId)])
  {
    var list := byImsi[s.imsi];
    OthersNoDuplicates(list, s.sessionId);
    forall t: PgwSession ensures t in Others(list, s.sessionId) <==> t in list && t.sessionId != s.sessionId {
      OthersMember(list, s.sessionId, t);
    }
    var byId', byImsi' := byId - {s.sessionId}, byImsi[s.imsi := Others(list, s.sessionId)];
    forall i: Id, t: PgwSession | i in byImsi' && t in byImsi'[i]
      ensures t.imsi == i && t.sessionId in byId' && byId'[t.sessionId] == t
    {
      if i == s.imsi {
        assert byImsi'[i] == Others(list, s.sessionId);
        assert t in Others(list, s.sessionId);
        OthersMember(list, s.sessionId, t);
        assert t in list;
      } else {
        assert byImsi'[i] == byImsi[i];
      }
    }
    forall id | id in byId' ensures byId'[id] in byImsi'[byId'[id].imsi] {
      assert byId[id] in byImsi[byId[id].imsi];
    }
  }

  lemma TeidIndexAfterAdd(byId: map<Id, PgwSession>, byTeid: map<Id, PgwSession>, s: PgwSession)
    requires TeidIndex(byId, byTeid) && s.sessionId !in byId && s.s5cTeid !in byTeid
    ensures TeidIndex(byId[s.sessionId := s], byTeid[s.s5cTeid := s])
  {}

  lemma TeidIndexAfterRemove(byId: map<Id, PgwSession>, byTeid: map<Id, PgwSession>, s: PgwSession)
    requires TeidIndex(byId, byTeid) && s.sessionId in byId && byId[s.sessionId] == s
    ensures TeidIndex(byId - {s.sessionId}, byTeid - {s.s5cTeid}) && s.s5cTeid in byTeid
  {}

  lemma FoundByTeid(byId: map<Id, PgwSession>, byTeid: map<Id, PgwSession>, teid: Id)
    requires TeidIndex(byId, byTeid) && teid in byTeid
    ensures byTeid[teid].sessionId in byId && byId[byTeid[teid].sessionId] == byTeid[teid] &&
            byTeid[teid].s5cTeid == teid
  {}

  lemma KeyedAfterRemove(byId: map<Id, PgwSession>, id: Id)
    requires Keyed(byId) && id in byId
    ensures Keyed(byId - {id}) && |byId - {id}| == |byId| - 1
  {
    assert (byId - {id}).Keys == byId.Keys - {id};
  }

  predicate Keyed(byId: map<Id, PgwSession>) { forall id | id in byId :: byId[id].sessionId == id }

  // ---------- pools and live sessions ----------

  function ApnOrDefault(apns: map<string, ApnConfig>, apn: string): ApnConfig {
    if apn in apns then apns[apn] else ApnConfig(IPv4, DEFAULT_POOL, 9, 15)
  }

  predicate Holds(apns: map<string, ApnConfig>, s: PgwSession, pool: string) {
    ApnOrDefault(apns, s.apn).ipPoolId == pool && s.ipAddress.Some?
  }

  /** The addresses the live sessions hold from a pool, by session. */
  function Held(apns: map<string, ApnConfig>, byId: map<Id, PgwSession>, pool: string): map<Id, Address> {
    map id | id in byId && Holds(apns, byId[id], pool) :: byId[id].ipAddress.value
  }

  function LeakedFrom(leaked: map<string, set<Address>>, pool: string): set<Address> {
    if pool in leaked then leaked[pool] else {}
  }

  predicate PoolsUsable(pools: map<string, IpPool>) {
    && (forall p | p in pools && pools[p].pdnType.IPv4? :: pools[p].prefixLen <= 32)
    && (IPV6_POOL in pools ==> pools[IPV6_POOL].pdnType.IPv6?)
  }

  ghost predicate AddressesAgree(apns: map<string, ApnConfig>, pools: map<string, IpPool>, counters: map<string, nat>,
                                 byId: map<Id, PgwSession>, leaked: map<string, set<Address>>)
  {
    && PoolsUsable(pools)
    && forall p | p in pools :: PoolAgrees(pools[p], Counter(counters, p), Held(apns, byId, p), LeakedFrom(leaked, p))
  }

  /** The address part of a create: an IPv4 address from the APN's pool, then an IPv6 prefix. */
  function AllocateFor(pools: map<string, IpPool>, counters: map<string, nat>, pool: string, pdnType: PdnType):
    (Option<Address>, map<string, IpPool>, map<string, nat>)
    requires PoolsUsable(pools)
  {
    match pdnType
    case IPv4 => Allocate(pools, counters, pool)
    case IPv6 => (None, Allocate(pools, counters, IPV6_POOL).1, Allocate(pools, counters, IPV6_POOL).2)
    case IPv4v6 =>
      var (ip, pools', counters') := Allocate(pools, counters, pool);
      if ip == None then (None, pools', counters') else
      (ip, Allocate(pools', counters', IPV6_POOL).1, Allocate(pools', counters', IPV6_POOL).2)
  }

  /** The pools and counters after it. */
  function AllocatedFor(pools: map<string, IpPool>, counters: map<string, nat>, pool: string, pdnType: PdnType):
    (map<string, IpPool>, map<string, nat>)
    requires PoolsUsable(pools)
  {
    var (_, pools', counters') := AllocateFor(pools, counters, pool, pdnType);
    (pools', counters')
  }

  /** The prefix that goes with it. Without an IPv6 pool a session simply has none. */
  function PrefixFor(pools: map<string, IpPool>, counters: map<string, nat>, pool: string,
      pdnType: PdnType): Option<Address>
    requires PoolsUsable(pools)
  {
    match pdnType
    case IPv4 => None
    case IPv6 => Allocate(pools, counters, IPV6_POOL).0
    case IPv4v6 =>
      var (ip, pools', counters') := Allocate(pools, counters, pool);
      if ip == None then None else Allocate(pools', counters', IPV6_POOL).0
  }

  function PdnTypeOf(request: CreateSessionRequest, config: ApnConfig): PdnType {
    if request.pdn.Stated? then request.pdn.pdnType else config.pdnType
  }

  /** The type that the request states, else the APN's, else IPv4. */
  predicate TypeAsAsked(apns: map<string, ApnConfig>, request: CreateSessionRequest, pdnType: PdnType) {
    && (request.pdn.Stated? ==> pdnType == request.pdn.pdnType)
    && (request.pdn == Unstated && request.apn in apns ==> pdnType == apns[request.apn].pdnType)
    && (request.pdn == Unstated && request.apn !in apns ==> pdnType == IPv4)
  }

  /** An APN that is not configured is served from the internet pool, with QCI 9 and priority 15. */
  lemma UnknownApn(apns: map<string, ApnConfig>, apn: string)
    ensures if apn in apns then ApnOrDefault(apns, apn) == apns[apn]
            else ApnOrDefault(apns, apn) == ApnConfig(IPv4, "pool-ipv4-internet", 9, 15)
  {}

  /** The record after the address part of a create. */
  function HistoryFor(history: History, pools: map<string, IpPool>, counters: map<string, nat>, pool: string,
      pdnType: PdnType): History
    requires PoolsUsable(pools)
  {
    match pdnType
    case IPv4 => Recorded(history, pool, Allocate(pools, counters, pool).0)
    case IPv6 => Recorded(history, IPV6_POOL, Allocate(pools, counters, IPV6_POOL).0)
    case IPv4v6 =>
      var (ip, pools', counters') := Allocate(pools, counters, pool);
      if ip == None then history
      else Recorded(Recorded(history, pool, ip), IPV6_POOL, Allocate(pools', counters', IPV6_POOL).0)
  }

  lemma HistoryThroughAllocateFor(pools: map<string, IpPool>, counters: map<string, nat>, history: History,
      pool: string, pdnType: PdnType)
    requires PoolsUsable(pools) && HistoryAgrees(pools, counters, history)
    ensures var (_, pools', counters') := AllocateFor(pools, counters, pool, pdnType);
            var history' := HistoryFor(history, pools, counters, pool, pdnType);
            HistoryAgrees(pools', counters', history') && Extends(history, history') && SamePools(pools, pools')
  {
    hide HistoryAgrees, Allocate, Extends, SamePools;
    match pdnType
    case IPv4 =>
      HistoryThroughAllocate(pools, counters, history, pool);
      AllocateExtends(pools, counters, history, pool);
    case IPv6 =>
      HistoryThroughAllocate(pools, counters, history, IPV6_POOL);
      AllocateExtends(pools, counters, history, IPV6_POOL);
    case IPv4v6 =>
      HistoryThroughAllocate(pools, counters, history, pool);
      AllocateExtends(pools, counters, history, pool);
      var (ip, pools', counters') := Allocate(pools, counters, pool);
      if ip != None {
        var history' := Recorded(history, pool, ip);
        HistoryThroughAllocate(pools', counters', history', IPV6_POOL);
        AllocateExtends(pools', counters', history', IPV6_POOL);
        ExtendsThrough(history, history', Recorded(history', IPV6_POOL, Allocate(pools', counters', IPV6_POOL).0));
        SamePoolsThrough(pools, pools', Allocate(pools', counters', IPV6_POOL).1);
      }
  }

  lemma ExtendsThrough(a: History, b: History, c: History)
    requires Extends(a, b) && Extends(b, c)
    ensures Extends(a, c)
  {
    forall p ensures Past(a, p) <= Past(c, p) {
      assert Past(a, p) <= Past(b, p) && Past(b, p) <= Past(c, p);
    }
  }

  lemma SamePoolsThrough(a: map<string, IpPool>, b: map<string, IpPool>, c: map<string, IpPool>)
    requires SamePools(a, b) && SamePools(b, c)
    ensures SamePools(a, c)
  {}

  lemma AllocateForKeepsPools(pools: map<string, IpPool>, counters: map<string, nat>, pool: string, pdnType: PdnType)
    requires PoolsUsable(pools)
    ensures var pools' := AllocateFor(pools, counters, pool, pdnType).1;
            PoolsUsable(pools') && pools'.Keys == pools.Keys
  {}

  lemma AgreesThroughAllocateFor(pools: map<string, IpPool>, counters: map<string, nat>, pool: string, pdnType: PdnType,
                                 p: string, held: map<Id, Address>, leaked: set<Address>, session: Id)
    requires PoolsUsable(pools)
    requires p in pools && PoolAgrees(pools[p], Counter(counters, p), held, leaked) && session !in held
    ensures var (ip, pools', counters') := AllocateFor(pools, counters, pool, pdnType);
            && p in pools'
            && PoolAgrees(pools'[p], Counter(counters', p),
                          if p == pool && ip.Some? then held[session := ip.value] else held, leaked)
  {
    if pdnType.IPv6? {
      AgreesThroughAllocate(pools, counters, IPV6_POOL, p, held, leaked, session);
    } else {
      AgreesThroughAllocate(pools, counters, pool, p, held, leaked, session);
    }
  }

  lemma AddressesAfterCreate(apns: map<string, ApnConfig>, pools: map<string, IpPool>, counters: map<string, nat>,
                             byId: map<Id, PgwSession>, leaked: map<string, set<Address>>, s: PgwSession)
    requires AddressesAgree(apns, pools, counters, byId, leaked) && s.sessionId !in byId
    requires s.ipAddress == AllocateFor(pools, counters, ApnOrDefault(apns, s.apn).ipPoolId, s.pdnType).0
    ensures var (_, pools', counters') := AllocateFor(pools, counters, ApnOrDefault(apns, s.apn).ipPoolId, s.pdnType);
            AddressesAgree(apns, pools', counters', byId[s.sessionId := s], leaked)
  {
    hide PoolAgrees, AllocateFor, Held;
    var pool := ApnOrDefault(apns, s.apn).ipPoolId;
    var (ip, pools', counters') := AllocateFor(pools, counters, pool, s.pdnType);
    AllocateForKeepsPools(pools, counters, pool, s.pdnType);
    forall p | p in pools
      ensures PoolAgrees(pools'[p], Counter(counters', p), Held(apns, byId[s.sessionId := s], p), LeakedFrom(leaked, p))
    {
      HeldAfterAdd(apns, byId, s, p);
      AgreesThroughAllocateFor(pools, counters, pool, s.pdnType, p, Held(apns, byId, p), LeakedFrom(leaked, p),
                               s.sessionId);
    }
  }

  lemma AddressesAfterRefusal(apns: map<string, ApnConfig>, pools: map<string, IpPool>, counters: map<string, nat>,
                              byId: map<Id, PgwSession>, leaked: map<string, set<Address>>,
                              pool: string, pdnType: PdnType, session: Id)
    requires AddressesAgree(apns, pools, counters, byId, leaked) && session !in byId
    requires AllocateFor(pools, counters, pool, pdnType).0 == None
    ensures var (_, pools', counters') := AllocateFor(pools, counters, pool, pdnType);
            AddressesAgree(apns, pools', counters', byId, leaked)
  {
    hide PoolAgrees, AllocateFor;
    var (ip, pools', counters') := AllocateFor(pools, counters, pool, pdnType);
    AllocateForKeepsPools(pools, counters, pool, pdnType);
    forall p | p in pools
      ensures PoolAgrees(pools'[p], Counter(counters', p), Held(apns, byId, p), LeakedFrom(leaked, p))
    {
      AgreesThroughAllocateFor(pools, counters, pool, pdnType, p, Held(apns, byId, p), LeakedFrom(leaked, p), session);
    }
  }

  lemma HeldAfterAdd(apns: map<string, ApnConfig>, byId: map<Id, PgwSession>, s: PgwSession, pool: string)
    requires s.sessionId !in byId
    ensures Held(apns, byId[s.sessionId := s], pool) ==
            if Holds(apns, s, pool) then Held(apns, byId, pool)[s.sessionId := s.ipAddress.value]
              else Held(apns, byId, pool)
    ensures s.sessionId !in Held(apns, byId, pool)
  {}

  lemma HeldAfterRemove(apns: map<string, ApnConfig>, byId: map<Id, PgwSession>, id: Id, pool: string)
    requires id in byId
    ensures Held(apns, byId - {id}, pool) == Held(apns, byId, pool) - {id}
    ensures id in Held(apns, byId, pool) <==> Holds(apns, byId[id], pool)
  {}

  function Release(pools: map<string, IpPool>, pool: string, a: Address): map<string, IpPool> {
    if pool in pools then pools[pool := pools[pool].(taken := WithoutAddress(pools[pool].taken, a))] else pools
  }

  /** An address is given back only when its APN is configured; otherwise it leaks. */
  function PoolsAfterDelete(apns: map<string, ApnConfig>, pools: map<string, IpPool>, s: PgwSession):
    map<string, IpPool>
  {
    if s.apn in apns && s.ipAddress.Some? then Release(pools, apns[s.apn].ipPoolId, s.ipAddress.value) else pools
  }

  function LeakedAfterDelete(apns: map<string, ApnConfig>, leaked: map<string, set<Address>>,
      s: PgwSession): map<string, set<Address>>
  {
    if s.apn in apns || s.ipAddress == None then leaked
    else leaked[DEFAULT_POOL := LeakedFrom(leaked, DEFAULT_POOL) + {s.ipAddress.value}]
  }

  lemma AddressesAfterDelete(apns: map<string, ApnConfig>, pools: map<string, IpPool>, counters: map<string, nat>,
                             byId: map<Id, PgwSession>, leaked: map<string, set<Address>>, s: PgwSession)
    requires AddressesAgree(apns, pools, counters, byId, leaked) && s.sessionId in byId && byId[s.sessionId] == s
    ensures AddressesAgree(apns, PoolsAfterDelete(apns, pools, s), counters, byId - {s.sessionId},
                           LeakedAfterDelete(apns, leaked, s))
    ensures PoolsUsable(PoolsAfterDelete(apns, pools, s))
  {
    var pools', leaked' := PoolsAfterDelete(apns, pools, s), LeakedAfterDelete(apns, leaked, s);
    forall p | p in pools'
      ensures PoolAgrees(pools'[p], Counter(counters, p), Held(apns, byId - {s.sessionId}, p), LeakedFrom(leaked', p))
    {
      HeldAfterRemove(apns, byId, s.sessionId, p);
      var held := Held(apns, byId, p);
      if Holds(apns, s, p) && pools[p].pdnType.IPv4? {
        if s.apn in apns {
          AgreesAfterRelease(pools[p], Counter(counters, p), held, LeakedFrom(leaked, p), s.sessionId);
        } else {
          AgreesAfterLeak(pools[p], Counter(counters, p), held, LeakedFrom(leaked, p), s.sessionId);
        }
      } else if !Holds(apns, s, p) {
        assert held - {s.sessionId} == held;
      }
    }
  }

  lemma HistoryAfterDelete(apns: map<string, ApnConfig>, pools: map<string, IpPool>, counters: map<string, nat>,
      history: History, s: PgwSession)
    requires HistoryAgrees(pools, counters, history)
    ensures HistoryAgrees(PoolsAfterDelete(apns, pools, s), counters, history) &&
            SamePools(pools, PoolsAfterDelete(apns, pools, s))
  {
    hide FirstAddresses, FirstPrefixes, WithoutAddress;
  }

  /** What an IPv6 pool has answered over the whole run never repeats. */
  lemma PrefixesNeverRepeat(pools: map<string, IpPool>, counters: map<string, nat>, history: History, p: string)
    requires HistoryAgrees(pools, counters, history) && p in pools && pools[p].pdnType.IPv6?
    ensures AllDistinct(Past(history, p)) && forall a | a in Past(history, p) :: a.V6Prefix? && a.index >= 2
  {
    assert RecordAgrees(pools[p], Counter(counters, p), Past(history, p));
    hide HandedOut;
  }

  /** An allocation fails exactly when there is no such pool, or it is of no one kind, or all usable addresses
      of it have been answered: 2^(32 - prefix) - 3 of them, and none for a prefix of 31 or 32. */
  lemma ExhaustedExactly(pools: map<string, IpPool>, counters: map<string, nat>, history: History, p: string)
    requires PoolsUsable(pools) && HistoryAgrees(pools, counters, history)
    ensures Allocate(pools, counters, p).0 == None <==>
            p !in pools || pools[p].pdnType.IPv4v6? ||
            (pools[p].pdnType.IPv4? && |Past(history, p)| >= PoolSize(pools[p]) - 3)
  {
    if p in pools {
      assert RecordAgrees(pools[p], Counter(counters, p), Past(history, p));
      hide PoolSize, NetworkAddress;
    }
  }

  /** A pool has a power of two of addresses, begun at the multiple of it at or below its network address. */
  lemma NetworkIsAligned(pool: IpPool) returns (k: nat)
    requires pool.prefixLen <= 32
    ensures NetworkAddress(pool) == k * PoolSize(pool) <= pool.network < NetworkAddress(pool) + PoolSize(pool)
  {
    k := MaskedIsAligned(pool.network, 32 - pool.prefixLen);
  }

  lemma {:induction false} Pow2Sum(a: nat, b: nat)
    ensures Pow2(a) * Pow2(b) == Pow2(a + b)
  {
    if a == 0 {
    } else {
      Pow2Sum(a - 1, b);
      assert Pow2(a) * Pow2(b) == 2 * (Pow2(a - 1) * Pow2(b));
    }
  }

  lemma Pow2Of32()
    ensures Pow2(32) == 0x1_0000_0000
  {
    assert Pow2(4) == 16 by { assert Pow2(2) == 4; }
    hide Pow2;
    Pow2Sum(4, 4);
    Pow2Sum(8, 8);
    Pow2Sum(16, 16);
  }

  /** The pools of one prefix length share out the address space of 2^32. */
  lemma PoolsShareTheSpace(pool: IpPool)
    requires pool.prefixLen <= 32
    ensures PoolSize(pool) * Pow2(pool.prefixLen) == 0x1_0000_0000
  {
    Pow2Sum(32 - pool.prefixLen, pool.prefixLen);
    Pow2Of32();
    hide Pow2;
  }

  lemma {:induction false} MaskedIsAligned(address: nat, bits: nat) returns (k: nat)
    ensures Masked(address, bits) == k * Pow2(bits) <= address < Masked(address, bits) + Pow2(bits)
  {
    if bits == 0 {
      k := address;
    } else {
      k := MaskedIsAligned(address / 2, bits - 1);
      assert 2 * (k * Pow2(bits - 1)) == k * (2 * Pow2(bits - 1));
    }
  }

  /** The addresses of a session whose APN has an IPv4 pool: the next one of that pool unless the session is for
      IPv6 alone, and unless it is for IPv4 alone or was refused, the next prefix of the one IPv6 pool. */
  lemma AddressesOfSession(pools: map<string, IpPool>, counters: map<string, nat>, pool: string, pdnType: PdnType)
    requires PoolsUsable(pools) && pool in pools && pools[pool].pdnType.IPv4?
    ensures var ip, prefix := AllocateFor(pools, counters, pool, pdnType).0, PrefixFor(pools, counters, pool, pdnType);
            && ip == (if pdnType == IPv6 || Counter(counters, pool) >= PoolSize(pools[pool]) - 1 then None
                      else Some(V4(NetworkAddress(pools[pool]) + Counter(counters, pool))))
            && prefix == (if pdnType == IPv4 || (pdnType == IPv4v6 && ip == None) || "pool-ipv6" !in pools then None
                          else Some(V6Prefix(Counter(counters, "pool-ipv6"))))
  {
    hide PoolSize, NetworkAddress;
  }

  /** What an IPv4 pool of prefix at most 30 has answered over the whole run never repeats, stays inside the
      usable range, and has every address that a live session holds or that has leaked. */
  lemma AddressesNeverRepeat(apns: map<string, ApnConfig>, pools: map<string, IpPool>, counters: map<string, nat>,
                             byId: map<Id, PgwSession>, leaked: map<string, set<Address>>, history: History, p: string)
    requires AddressesAgree(apns, pools, counters, byId, leaked) && HistoryAgrees(pools, counters, history)
    requires p in pools && pools[p].pdnType.IPv4? && pools[p].prefixLen <= 30
    ensures IssuedSoundly(pools[p], Past(history, p))
    ensures forall a | a in Held(apns, byId, p).Values + LeakedFrom(leaked, p) :: a in Past(history, p)
  {
    hide Held, LeakedFrom;
    Pow2Monotone(2, 32 - pools[p].prefixLen);
    assert Pow2(2) == 2 * Pow2(1) == 4;
    var issued := Past(history, p);
    assert forall i | 0 <= i < |issued| :: issued[i] == V4(NetworkAddress(pools[p]) + 2 + i);
    hide NetworkAddress, Past;
  }

  /** A delete leaks exactly when the session has an address and its APN is not configured. */
  lemma LeaksExactly(apns: map<string, ApnConfig>, pools: map<string, IpPool>, counters: map<string, nat>,
                     byId: map<Id, PgwSession>, leaked: map<string, set<Address>>, s: PgwSession)
    requires AddressesAgree(apns, pools, counters, byId, leaked) && s.sessionId in byId && byId[s.sessionId] == s
    requires DEFAULT_POOL in pools && pools[DEFAULT_POOL].pdnType.IPv4?
    ensures LeakedAfterDelete(apns, leaked, s) == leaked <==> s.apn in apns || s.ipAddress == None
  {
    if s.apn !in apns && s.ipAddress.Some? {
      var held := Held(apns, byId, DEFAULT_POOL);
      assert s.sessionId in held && held[s.sessionId] == s.ipAddress.value;
      assert s.ipAddress.value in held.Values;
      assert s.ipAddress.value !in LeakedFrom(leaked, DEFAULT_POOL);
      assert s.ipAddress.value in LeakedFrom(LeakedAfterDelete(apns, leaked, s), DEFAULT_POOL);
    }
  }

  ghost predicate LeakedStays(before: map<string, set<Address>>, after: map<string, set<Address>>) {
    forall p :: LeakedFrom(before, p) <= LeakedFrom(after, p)
  }

  datatype Stats = Stats(totalSessions: int, totalBearers: int)

  /** The three dictionaries hold the same sessions, the counts are the real ones, and the tunnel ids are
      distinct and issued. */
  ghost predicate IndexesAgree(byId: map<Id, PgwSession>, byTeid: map<Id, PgwSession>, byImsi: map<Id, seq<PgwSession>>,
                               stats: Stats, bearers: Bearers, counter: nat)
  {
    && Keyed(byId) && TeidIndex(byId, byTeid) && ImsiIndex(byId, byImsi)
    && bearers.Keys == byId.Keys && stats == Stats(|byId|, Total(bearers))
    && TeidsDistinct(bearers) && TeidsIssued(bearers, counter)
  }

  lemma IndexesAfterAdd(byId: map<Id, PgwSession>, byTeid: map<Id, PgwSession>, byImsi: map<Id, seq<PgwSession>>,
                        stats: Stats, bearers: Bearers, counter: nat, s: PgwSession, contexts: seq<BearerContext>,
                        config: ApnConfig)
    requires IndexesAgree(byId, byTeid, byImsi, stats, bearers, counter) && s.sessionId !in byId && s.s5cTeid !in byTeid
    ensures IndexesAgree(byId[s.sessionId := s], byTeid[s.s5cTeid := s], byImsi[s.imsi := Listed(byImsi, s.imsi) + [s]],
                         Stats(stats.totalSessions + 1, stats.totalBearers + |contexts|),
                         bearers[s.sessionId := NewBearers(contexts, config, counter)], counter + |contexts|)
  {
    hide TeidIndex, ImsiIndex, TeidsDistinct, TeidsIssued, Total, NewBearers, Keyed, Listed;
    KeyedAfterAdd(byId, s);
    TeidIndexAfterAdd(byId, byTeid, s);
    ImsiIndexAfterAdd(byId, byImsi, s);
    BearersAfterAdd(bearers, s.sessionId, contexts, config, counter);
    var bs := NewBearers(contexts, config, counter);
    assert bearers[s.sessionId := bs].Keys == byId[s.sessionId := s].Keys;
  }

  lemma KeyedAfterAdd(byId: map<Id, PgwSession>, s: PgwSession)
    requires Keyed(byId) && s.sessionId !in byId
    ensures Keyed(byId[s.sessionId := s]) && |byId[s.sessionId := s]| == |byId| + 1
  {
    assert byId[s.sessionId := s].Keys == byId.Keys + {s.sessionId};
  }

  lemma BearersAfterAdd(m: Bearers, id: Id, contexts: seq<BearerContext>, config: ApnConfig, counter: nat)
    requires id !in m && TeidsDistinct(m) && TeidsIssued(m, counter)
    ensures var m' := m[id := NewBearers(contexts, config, counter)];
            TeidsDistinct(m') && TeidsIssued(m', counter + |contexts|) && Total(m') == Total(m) + |contexts|
  {
    TeidsAfterCreate(m, id, contexts, config, counter);
    TotalWith(m, id, NewBearers(contexts, config, counter));
    hide TeidsDistinct, TeidsIssued, Total;
  }

  lemma IndexesAfterRemove(byId: map<Id, PgwSession>, byTeid: map<Id, PgwSession>, byImsi: map<Id, seq<PgwSession>>,
                           stats: Stats, bearers: Bearers, counter: nat, s: PgwSession)
    requires IndexesAgree(byId, byTeid, byImsi, stats, bearers, counter) && s.sessionId in byId &&
             byId[s.sessionId] == s
    ensures s.imsi in byImsi
    ensures IndexesAgree(byId - {s.sessionId}, byTeid - {s.s5cTeid},
                         byImsi[s.imsi := Others(byImsi[s.imsi], s.sessionId)],
                         Stats(stats.totalSessions - 1, stats.totalBearers - |bearers[s.sessionId]|),
                         bearers - {s.sessionId}, counter)
  {
    assert s.imsi in byImsi;
    hide TeidIndex, ImsiIndex, TeidsDistinct, TeidsIssued, Total, Keyed, Others;
    TeidIndexAfterRemove(byId, byTeid, s);
    ImsiIndexAfterRemove(byId, byImsi, s);
    BearersAfterRemove(bearers, s.sessionId, counter);
    KeyedAfterRemove(byId, s.sessionId);
    assert (bearers - {s.sessionId}).Keys == (byId - {s.sessionId}).Keys;
  }

  lemma IndexesAfterSet(byId: map<Id, PgwSession>, byTeid: map<Id, PgwSession>, byImsi: map<Id, seq<PgwSession>>,
                        stats: Stats, bearers: Bearers, counter: nat, id: Id, bs: seq<Bearer>, counter': nat)
    requires IndexesAgree(byId, byTeid, byImsi, stats, bearers, counter) && id in byId
    requires TeidsDistinct(bearers[id := bs]) && TeidsIssued(bearers[id := bs], counter')
    ensures IndexesAgree(byId, byTeid, byImsi, Stats(stats.totalSessions, stats.totalBearers + |bs| - |bearers[id]|),
                         bearers[id := bs], counter')
  {
    hide TeidIndex, ImsiIndex, TeidsDistinct, TeidsIssued, Total, Keyed;
    TotalWith(bearers, id, bs);
  }

  lemma NothingYetAgrees(apns: map<string, ApnConfig>, pools: map<string, IpPool>)
    requires PoolsUsable(pools) && forall p | p in pools :: pools[p].taken == []
    ensures IndexesAgree(map[], map[], map[], Stats(0, 0), map[], 0)
    ensures AddressesAgree(apns, pools, map[], map[], map[]) && HistoryAgrees(pools, map[], map[])
  {}

  class PgwContext {
    const apnConfigs: map<string, ApnConfig>
    var ipPools: map<string, IpPool>
    var ipCounter: map<string, nat>
    var sessionsById: map<Id, PgwSession>
    var sessionsByImsi: map<Id, seq<PgwSession>>
    var sessionsByTeid: map<Id, PgwSession>
    var teidCounter: nat
    var stats: Stats
    // Addresses whose session was deleted without giving them back, by pool.
    ghost var leaked: map<string, set<Address>>

    // Every answer of every pool since the start.
    ghost var handedOut: History

    // The bearers of each live session, by session id.
    ghost var bearersOf: Bearers

    ghost predicate Valid()
      reads this, sessionsById.Values
    {
      && SessionsAgree()
      && PoolsUsable(ipPools)
      && AddressesAgree(apnConfigs, ipPools, ipCounter, sessionsById, leaked)
      && HistoryAgrees(ipPools, ipCounter, handedOut)
    }

    ghost predicate SessionsAgree()
      reads this, sessionsById.Values
    {
      && IndexesAgree(sessionsById, sessionsByTeid, sessionsByImsi, stats, bearersOf, teidCounter)
      && bearersOf.Keys == sessionsById.Keys
      && (forall id | id in sessionsById :: sessionsById[id].bearers == bearersOf[id])
    }

    constructor (pools: map<string, IpPool>, apns: map<string, ApnConfig>)
      requires PoolsUsable(pools) && forall p | p in pools :: pools[p].taken == []
      ensures Valid() && EbisDistinct(bearersOf) && sessionsById == map[] && leaked == map[] && handedOut == map[]
      ensures ipPools == pools && apnConfigs == apns
    {
      apnConfigs, ipPools, ipCounter := apns, pools, map[];
      sessionsById, sessionsByImsi, sessionsByTeid := map[], map[], map[];
      teidCounter, stats, leaked, handedOut, bearersOf := 0, Stats(0, 0), map[], map[], map[];
      NothingYetAgrees(apns, pools);
      hide IndexesAgree, AddressesAgree, HistoryAgrees;
    }

    method AllocateTeid() returns (teid: nat)
      modifies this`teidCounter
      ensures teidCounter == old(teidCounter) + 1 == teid
    {
      teidCounter := teidCounter + 1;
      teid := teidCounter;
    }

    method AllocateIp(id: string) returns (ip: Option<Address>)
      requires PoolsUsable(ipPools)
      modifies this`ipPools, this`ipCounter, this`handedOut
      ensures (ip, ipPools, ipCounter) == Allocate(old(ipPools), old(ipCounter), id)
      ensures handedOut == Recorded(old(handedOut), id, ip)
      ensures PoolsUsable(ipPools)
    {
      hide PoolSize, NetworkAddress;
      if id !in ipPools { return None; }
      var pool := ipPools[id];
      if id !in ipCounter { ipCounter := ipCounter[id := 2]; }
      var counter := ipCounter[id];
      assert ipCounter == old(ipCounter)[id := counter];
      if pool.pdnType == IPv4 {
        if counter >= PoolSize(pool) - 1 { return None; }
        var a := V4(NetworkAddress(pool) + counter);
        ipCounter := ipCounter[id := counter + 1];
        ipPools := ipPools[id := pool.(taken := pool.taken + [a])];
        handedOut := Recorded(handedOut, id, Some(a));
        assert ipCounter == old(ipCounter)[id := counter + 1];
        return Some(a);
      } else if pool.pdnType == IPv6 {
        ipCounter := ipCounter[id := counter + 1];
        handedOut := Recorded(handedOut, id, Some(V6Prefix(counter)));
        assert ipCounter == old(ipCounter)[id := counter + 1];
        return Some(V6Prefix(counter));
      }
      return None;
    }

    method ReleaseIp(id: string, ip: Address)
      modifies this`ipPools
      ensures ipPools == Release(old(ipPools), id, ip)
    {
      if id in ipPools {
        if ip in ipPools[id].taken {
          ipPools := ipPools[id := ipPools[id].(taken := WithoutAddress(ipPools[id].taken, ip))];
        } else {
          WithoutAbsent(ipPools[id].taken, ip);
        }
      }
    }

    method AddSession(session: PgwSession)
      modifies this`sessionsById, this`sessionsByTeid, this`sessionsByImsi, this`stats, this`bearersOf
      ensures bearersOf == old(bearersOf)[session.sessionId := session.bearers]
      ensures sessionsById == old(sessionsById)[session.sessionId := session]
      ensures sessionsByTeid == old(sessionsByTeid)[session.s5cTeid := session]
      ensures sessionsByImsi ==
              old(sessionsByImsi)[session.imsi := Listed(old(sessionsByImsi), session.imsi) + [session]]
      ensures stats == old(stats).(totalSessions := old(stats).totalSessions + 1)
    {
      sessionsById := sessionsById[session.sessionId := session];
      sessionsByTeid := sessionsByTeid[session.s5cTeid := session];
      List(session);
      stats := stats.(totalSessions := stats.totalSessions + 1);
      bearersOf := bearersOf[session.sessionId := session.bearers];
    }

    method List(session: PgwSession)
      modifies this`sessionsByImsi
      ensures sessionsByImsi ==
              old(sessionsByImsi)[session.imsi := Listed(old(sessionsByImsi), session.imsi) + [session]]
    {
      if session.imsi !in sessionsByImsi {
        sessionsByImsi := sessionsByImsi[session.imsi := []];
      }
      sessionsByImsi := sessionsByImsi[session.imsi := sessionsByImsi[session.imsi] + [session]];
    }

    /** Create Session Request. `sessionId` and `s5cTeid` are the random values drawn for it. */
    method CreateSession(request: CreateSessionRequest, sessionId: Id, s5cTeid: Id) returns (cause: Cause)
      requires Valid() && sessionId !in sessionsById && s5cTeid !in sessionsByTeid
      modifies this
      ensures Valid() && leaked == old(leaked)
      ensures cause == RequestAccepted || cause == BadRequest || cause == AddressesOccupied
      ensures cause == BadRequest <==> request.pdn.Unparsable?
      ensures var config := ApnOrDefault(apnConfigs, request.apn);
              cause == AddressesOccupied <==>
              !request.pdn.Unparsable? && PdnTypeOf(request, config) != IPv6 &&
              AllocateFor(old(ipPools), old(ipCounter), config.ipPoolId, PdnTypeOf(request, config)).0 == None
      ensures cause == BadRequest ==>
              ipPools == old(ipPools) && ipCounter == old(ipCounter) && handedOut == old(handedOut)
      ensures var config := ApnOrDefault(apnConfigs, request.apn);
              cause != BadRequest ==>
                && (ipPools, ipCounter) ==
                     AllocatedFor(old(ipPools), old(ipCounter), config.ipPoolId, PdnTypeOf(request, config))
                && handedOut == HistoryFor(old(handedOut), old(ipPools), old(ipCounter), config.ipPoolId,
                                           PdnTypeOf(request, config))
      ensures cause != RequestAccepted ==>
                && sessionsById == old(sessionsById) && sessionsByTeid == old(sessionsByTeid)
                && sessionsByImsi == old(sessionsByImsi) && bearersOf == old(bearersOf) &&
                   teidCounter == old(teidCounter)
      ensures cause == RequestAccepted ==>
                var config := ApnOrDefault(apnConfigs, request.apn);
                && sessionId in sessionsById && fresh(sessionsById[sessionId])
                && var s := sessionsById[sessionId];
                && s.imsi == request.imsi && s.apn == request.apn && s.s5cTeid == s5cTeid &&
                   s.pdnType == PdnTypeOf(request, config)
                && s.ipv6Prefix == PrefixFor(old(ipPools), old(ipCounter), config.ipPoolId, s.pdnType)
                && sessionsById == old(sessionsById)[sessionId := s]
                && bearersOf == old(bearersOf)[sessionId := NewBearers(request.contexts, config, old(teidCounter))]
                && (s.ipAddress.Some? <==> s.pdnType != IPv6)
                && (s.ipAddress, ipPools, ipCounter) ==
                     AllocateFor(old(ipPools), old(ipCounter), config.ipPoolId, s.pdnType)
                && AsAsked(request.contexts, config, old(teidCounter), s.bearers)
                && TypeAsAsked(apnConfigs, request, s.pdnType)
    {
      NewBearersAreAsAsked(request.contexts, ApnOrDefault(apnConfigs, request.apn), teidCounter);
      hide AsAsked;
      hide AddressesAgree, HistoryAgrees, PoolsUsable, AllocateFor, HistoryFor, PrefixFor, NewBearers, IndexesAgree;
      var config := ApnOrDefault(apnConfigs, request.apn);
      if request.pdn.Unparsable? { return BadRequest; }
      var pdnType := PdnTypeOf(request, config);
      HistoryThroughAllocateFor(ipPools, ipCounter, handedOut, config.ipPoolId, pdnType);
      var ipAddress, ipv6Prefix := AllocateAddresses(config.ipPoolId, pdnType);
      if pdnType != IPv6 && ipAddress == None {
        AddressesAfterRefusal(apnConfigs, old(ipPools), old(ipCounter), sessionsById, leaked, config.ipPoolId, pdnType,
                              sessionId);
        return AddressesOccupied;
      }
      var session := Establish(request, sessionId, s5cTeid, pdnType, ipAddress, ipv6Prefix, config);
      AddressesAfterCreate(apnConfigs, old(ipPools), old(ipCounter), old(sessionsById), leaked, session);
      AllocateForKeepsPools(old(ipPools), old(ipCounter), config.ipPoolId, pdnType);
      cause := RequestAccepted;
    }

    /** The session is built with its bearers and stored in all three dictionaries. */
    method Establish(request: CreateSessionRequest, sessionId: Id, s5cTeid: Id, pdnType: PdnType,
                     ipAddress: Option<Address>, ipv6Prefix: Option<Address>, config: ApnConfig)
      returns (session: PgwSession)
      requires SessionsAgree() && sessionId !in sessionsById && s5cTeid !in sessionsByTeid
      modifies this`sessionsById, this`sessionsByTeid, this`sessionsByImsi, this`bearersOf,
               this`teidCounter, this`stats
      ensures SessionsAgree() && fresh(session)
      ensures session.imsi == request.imsi && session.apn == request.apn && session.s5cTeid == s5cTeid
      ensures session.sessionId == sessionId && session.pdnType == pdnType && session.ipAddress == ipAddress
      ensures session.ipv6Prefix == ipv6Prefix
      ensures sessionsById == old(sessionsById)[sessionId := session]
      ensures bearersOf == old(bearersOf)[sessionId := NewBearers(request.contexts, config, old(teidCounter))]
    {
      hide NewBearers, IndexesAgree, Listed;
      var bearers := CreateBearers(request.contexts, config);
      session := new PgwSession(sessionId, s5cTeid, request.imsi, request.apn, pdnType, ipAddress, ipv6Prefix, bearers);
      AddSession(session);
      IndexesAfterAdd(old(sessionsById), old(sessionsByTeid), old(sessionsByImsi), old(stats), old(bearersOf),
                      old(teidCounter),
                      session, request.contexts, config);
    }

    method AllocateAddresses(pool: string, pdnType: PdnType) returns (ip: Option<Address>, prefix: Option<Address>)
      requires PoolsUsable(ipPools)
      modifies this`ipPools, this`ipCounter, this`handedOut
      ensures handedOut == HistoryFor(old(handedOut), old(ipPools), old(ipCounter), pool, pdnType)
      ensures (ip, ipPools, ipCounter) == AllocateFor(old(ipPools), old(ipCounter), pool, pdnType)
      ensures prefix == PrefixFor(old(ipPools), old(ipCounter), pool, pdnType)
      ensures PoolsUsable(ipPools) && (pdnType == IPv6 ==> ip == None)
    {
      ip, prefix := None, None;
      if pdnType == IPv4 || pdnType == IPv4v6 {
        ip := AllocateIp(pool);
        if ip == None { return; }
      }
      if pdnType == IPv6 || pdnType == IPv4v6 {
        prefix := AllocateIp(IPV6_POOL);
      }
    }

    method Unindex(session: PgwSession)
      modifies this`sessionsById, this`sessionsByTeid, this`sessionsByImsi, this`stats, this`bearersOf
      ensures stats == Stats(old(stats).totalSessions - 1, old(stats).totalBearers - |session.bearers|)
      ensures bearersOf == old(bearersOf) - {session.sessionId}
      ensures sessionsById == old(sessionsById) - {session.sessionId}
      ensures sessionsByTeid == old(sessionsByTeid) - {session.s5cTeid}
      ensures sessionsByImsi ==
              if session.imsi in old(sessionsByImsi)
              then old(sessionsByImsi)[session.imsi := Others(old(sessionsByImsi)[session.imsi], session.sessionId)]
              else old(sessionsByImsi)
    {
      sessionsById := sessionsById - {session.sessionId};
      if session.s5cTeid in sessionsByTeid { sessionsByTeid := sessionsByTeid - {session.s5cTeid}; }
      if session.imsi in sessionsByImsi {
        sessionsByImsi := sessionsByImsi[session.imsi := Others(sessionsByImsi[session.imsi], session.sessionId)];
      }
      stats := Stats(stats.totalSessions - 1, stats.totalBearers - |session.bearers|);
      bearersOf := bearersOf - {session.sessionId};
    }

    method RemoveSession(session: PgwSession)
      requires SessionsAgree() && session.sessionId in sessionsById && sessionsById[session.sessionId] == session
      modifies this`sessionsById, this`sessionsByTeid, this`sessionsByImsi, this`bearersOf, this`stats
      ensures SessionsAgree()
      ensures sessionsById == old(sessionsById) - {session.sessionId}
      ensures sessionsByTeid == old(sessionsByTeid) - {session.s5cTeid}
      ensures bearersOf == old(bearersOf) - {session.sessionId}
    {
      hide IndexesAgree, Others;
      IndexesAfterRemove(sessionsById, sessionsByTeid, sessionsByImsi, stats, bearersOf, teidCounter, session);
      Unindex(session);
    }

    /** Delete Session Request, by the gateway's control tunnel id. */
    method DeleteSession(s5cTeid: Id) returns (cause: Cause)
      requires Valid()
      modifies this
      ensures Valid()
      ensures cause == if s5cTeid in old(sessionsByTeid) then RequestAccepted else ContextNotFound
      ensures handedOut == old(handedOut)
      ensures cause == ContextNotFound ==>
                && sessionsById == old(sessionsById) && sessionsByTeid == old(sessionsByTeid)
                && sessionsByImsi == old(sessionsByImsi) && stats == old(stats)
                && bearersOf == old(bearersOf) && ipPools == old(ipPools) && leaked == old(leaked)
      ensures cause == RequestAccepted ==>
                var s := old(sessionsByTeid[s5cTeid]);
                && sessionsById == old(sessionsById) - {s.sessionId}
                && sessionsByTeid == old(sessionsByTeid) - {s5cTeid}
                && bearersOf == old(bearersOf) - {s.sessionId}
                && ipPools == PoolsAfterDelete(apnConfigs, old(ipPools), s)
                && leaked == LeakedAfterDelete(apnConfigs, old(leaked), s)
    {
      hide AddressesAgree, HistoryAgrees, PoolsUsable, ImsiIndex, TeidsDistinct, TeidsIssued, Total, PoolsAfterDelete,
        LeakedAfterDelete;
      if s5cTeid !in sessionsByTeid { return ContextNotFound; }
      FoundByTeid(sessionsById, sessionsByTeid, s5cTeid);
      hide IndexesAgree, TeidIndex, Keyed;
      Drop(sessionsByTeid[s5cTeid]);
      cause := RequestAccepted;
    }

    /** The session's address goes back, if it may, and the session leaves every index. */
    method Drop(session: PgwSession)
      requires Valid() && session.sessionId in sessionsById && sessionsById[session.sessionId] == session
      modifies this`ipPools, this`leaked, this`sessionsById, this`sessionsByTeid, this`sessionsByImsi, this`bearersOf,
        this`stats
      ensures Valid()
      ensures sessionsById == old(sessionsById) - {session.sessionId}
      ensures sessionsByTeid == old(sessionsByTeid) - {session.s5cTeid}
      ensures bearersOf == old(bearersOf) - {session.sessionId}
      ensures ipPools == PoolsAfterDelete(apnConfigs, old(ipPools), session)
      ensures leaked == LeakedAfterDelete(apnConfigs, old(leaked), session)
    {
      hide AddressesAgree, HistoryAgrees, PoolsUsable, IndexesAgree, PoolsAfterDelete, LeakedAfterDelete;
      AddressesAfterDelete(apnConfigs, ipPools, ipCounter, sessionsById, leaked, session);
      assert HistoryAgrees(PoolsAfterDelete(apnConfigs, ipPools, session), ipCounter, handedOut) by {
        HistoryAfterDelete(apnConfigs, ipPools, ipCounter, handedOut, session);
      }
      GiveBack(session);
      RemoveSession(session);
    }

    /** The address of a session that is about to go. */
    method GiveBack(session: PgwSession)
      modifies this`ipPools, this`leaked
      ensures ipPools == PoolsAfterDelete(apnConfigs, old(ipPools), session)
      ensures leaked == LeakedAfterDelete(apnConfigs, old(leaked), session)
    {
      if session.apn in apnConfigs && session.ipAddress.Some? {
        ReleaseIp(apnConfigs[session.apn].ipPoolId, session.ipAddress.value);
      }
      leaked := LeakedAfterDelete(apnConfigs, leaked, session);
    }

    /** The bearer list of one live session changes; `bs` is the new list. */
    ghost predicate OnlyBearersChanged(id: Id, before: Bearers, bs: seq<Bearer>)
      reads this
    {
      id in before && bearersOf == before[id := bs]
    }

    method SetBearers(session: PgwSession, bs: seq<Bearer>)
      requires Keyed(sessionsById) && session.sessionId in sessionsById && sessionsById[session.sessionId] == session
      requires bearersOf.Keys == sessionsById.Keys
      requires forall id | id in sessionsById :: sessionsById[id].bearers == bearersOf[id]
      modifies session, this`stats, this`bearersOf
      ensures bearersOf == old(bearersOf)[session.sessionId := bs] && bearersOf.Keys == sessionsById.Keys
      ensures forall id | id in sessionsById :: sessionsById[id].bearers == bearersOf[id]
      ensures stats == Stats(old(stats).totalSessions, old(stats).totalBearers + |bs| - |old(session.bearers)|)
    {
      stats := stats.(totalBearers := stats.totalBearers + |bs| - |session.bearers|);
      session.bearers := bs;
      bearersOf := bearersOf[session.sessionId := bs];
    }

    /** Gateway-initiated creation of a dedicated bearer. */
    method CreateDedicatedBearer(sessionId: Id, linkedEbi: int, qci: int, arpPriority: int) returns (cause: Cause)
      requires Valid()
      modifies this`bearersOf, this`teidCounter, this`stats, sessionsById.Values
      ensures Valid()
      ensures cause == if sessionId !in sessionsById then ContextNotFound
                       else if !HasEbi(old(bearersOf)[sessionId], linkedEbi) then LinkedBearerNotFound
                       else if MaxEbi(old(bearersOf)[sessionId]) >= 15 then NoResources
                       else RequestAccepted
      ensures cause != RequestAccepted ==> bearersOf == old(bearersOf) && teidCounter == old(teidCounter)
      ensures cause == RequestAccepted ==>
                && teidCounter == old(teidCounter) + 1
                && OnlyBearersChanged(sessionId, old(bearersOf),
                     old(bearersOf)[sessionId]
                       + [Bearer(MaxEbi(old(bearersOf)[sessionId]) + 1, qci, arpPriority, teidCounter)])
      ensures EbisDistinct(old(bearersOf)) ==> EbisDistinct(bearersOf)
    {
      hide AddressesAgree, HistoryAgrees, PoolsUsable, TeidIndex, ImsiIndex, TeidsDistinct, TeidsIssued, EbisDistinct,
        Total, MaxEbi, HasEbi;
      if sessionId !in sessionsById { return ContextNotFound; }
      var session := sessionsById[sessionId];
      var linked := FindBearer(session.bearers, linkedEbi);
      if linked == |session.bearers| { return LinkedBearerNotFound; }
      var newEbi := MaxEbi(session.bearers) + 1;
      if newEbi > LAST_EBI { return NoResources; }
      assert session.sessionId == sessionId;
      hide Keyed;
      AppendBearer(session, newEbi, qci, arpPriority);
      cause := RequestAccepted;
    }

    method AppendBearer(session: PgwSession, newEbi: int, qci: int, arpPriority: int)
      requires Valid() && session.sessionId in sessionsById && sessionsById[session.sessionId] == session
      requires forall a | a in session.bearers :: a.ebi < newEbi
      modifies session, this`bearersOf, this`teidCounter, this`stats
      ensures Valid() && teidCounter == old(teidCounter) + 1
      ensures OnlyBearersChanged(session.sessionId, old(bearersOf),
                old(bearersOf)[session.sessionId] + [Bearer(newEbi, qci, arpPriority, teidCounter)])
      ensures EbisDistinct(old(bearersOf)) ==> EbisDistinct(bearersOf)
    {
      hide AddressesAgree, HistoryAgrees, PoolsUsable, TeidIndex, ImsiIndex, TeidsDistinct, TeidsIssued, EbisDistinct,
        Total;
      teidCounter := teidCounter + 1;
      var bearer := Bearer(newEbi, qci, arpPriority, teidCounter);
      TeidsAfterAppend(bearersOf, session.sessionId, bearer, old(teidCounter));
      IndexesAfterSet(sessionsById, sessionsByTeid, sessionsByImsi, stats, bearersOf, old(teidCounter),
                      session.sessionId, session.bearers + [bearer], teidCounter);
      hide IndexesAgree;
      SetBearers(session, session.bearers + [bearer]);
    }

    static method FindBearer(bearers: seq<Bearer>, ebi: int) returns (i: nat)
      ensures i <= |bearers| && (i < |bearers| <==> HasEbi(bearers, ebi)) && (i < |bearers| ==> bearers != [])
      ensures i < |bearers| ==> bearers[i].ebi == ebi
      ensures forall j | 0 <= j < i :: bearers[j].ebi != ebi
    {
      i := 0;
      while i < |bearers|
        invariant i <= |bearers| && forall j | 0 <= j < i :: bearers[j].ebi != ebi
      {
        if bearers[i].ebi == ebi { return; }
        i := i + 1;
      }
    }

    /** Deletion of a dedicated bearer; the default bearer cannot go this way. */
    method DeleteDedicatedBearer(sessionId: Id, ebi: int) returns (cause: Cause)
      requires Valid()
      modifies this`bearersOf, this`stats, sessionsById.Values
      ensures Valid()
      ensures cause == if sessionId !in sessionsById then ContextNotFound
                       else if !HasEbi(old(bearersOf)[sessionId], ebi) then LinkedBearerNotFound
                       else if ebi == 5 then SemanticError
                       else RequestAccepted
      ensures cause != RequestAccepted ==> bearersOf == old(bearersOf)
      ensures cause == RequestAccepted ==>
                exists i :: var bs := old(bearersOf)[sessionId];
                            && 0 <= i < |bs| && bs[i].ebi == ebi && (forall j | 0 <= j < i :: bs[j].ebi != ebi)
                            && OnlyBearersChanged(sessionId, old(bearersOf), bs[..i] + bs[i + 1..])
      ensures EbisDistinct(old(bearersOf)) ==> EbisDistinct(bearersOf)
    {
      hide AddressesAgree, HistoryAgrees, PoolsUsable, TeidIndex, ImsiIndex, TeidsDistinct, TeidsIssued, EbisDistinct,
        Total;
      if sessionId !in sessionsById { return ContextNotFound; }
      var session := sessionsById[sessionId];
      var i := FindBearer(session.bearers, ebi);
      if i == |session.bearers| { return LinkedBearerNotFound; }
      if ebi == DEFAULT_EBI { return SemanticError; }
      var rest := session.bearers[..i] + session.bearers[i + 1..];
      TeidsAfterRemoveAt(bearersOf, sessionId, i, teidCounter);
      IndexesAfterSet(sessionsById, sessionsByTeid, sessionsByImsi, stats, bearersOf, teidCounter, sessionId, rest,
                      teidCounter);
      hide IndexesAgree;
      SetBearers(session, rest);
      cause := RequestAccepted;
    }

    method CreateBearers(contexts: seq<BearerContext>, config: ApnConfig) returns (bearers: seq<Bearer>)
      modifies this`teidCounter, this`stats
      ensures bearers == NewBearers(contexts, config, old(teidCounter)) && |bearers| == |contexts|
      ensures teidCounter == old(teidCounter) + |contexts| &&
              stats == old(stats).(totalBearers := old(stats).totalBearers + |contexts|)
    {
      bearers := [];
      for i := 0 to |contexts|
        invariant bearers == NewBearers(contexts, config, old(teidCounter))[..i]
        invariant teidCounter == old(teidCounter) + i &&
                  stats == old(stats).(totalBearers := old(stats).totalBearers + i)
      {
        var bc := contexts[i];
        var ebi := if bc.ebi.Some? then bc.ebi.value else DEFAULT_EBI;
        var qci := if bc.qci.Some? then bc.qci.value else config.qci;
        var arpPriority := if bc.arpPriority.Some? then bc.arpPriority.value else config.arpPriority;
        var teid := AllocateTeid();
        bearers := bearers + [Bearer(ebi, qci, arpPriority, teid)];
        stats := stats.(totalBearers := stats.totalBearers + 1);
      }
    }
  }

  // ---------- whole runs ----------

  /** One request of a run; a create carries the two random identifiers drawn for it. */
  datatype Request =
    | Create(request: CreateSessionRequest, sessionId: Id, s5cTeid: Id)
    | Delete(s5cTeid: Id)
    | CreateBearer(session: Id, linkedEbi: int, qci: int, arpPriority: int)
    | DeleteBearer(session: Id, ebi: int)

  predicate AsksDistinctEbis(r: Request) {
    r.Create? ==> forall i, j | 0 <= i < j < |r.request.contexts| ::
      RequestedEbi(r.request.contexts[i]) != RequestedEbi(r.request.contexts[j])
  }

  predicate ConfiguredApn(apns: map<string, ApnConfig>, r: Request) { r.Create? ==> r.request.apn in apns }

  ghost predicate AllConfigured(apns: map<string, ApnConfig>, byId: map<Id, PgwSession>) {
    forall id | id in byId :: byId[id].apn in apns
  }

  /** Any sequence of requests, whatever each of them is answered. A create whose random
      identifiers are already in use is not a possible draw and is passed over. */
  method Serve(pgw: PgwContext, requests: seq<Request>)
    requires pgw.Valid()
    modifies pgw, pgw.sessionsById.Values
    ensures pgw.Valid()
    ensures EbisDistinct(old(pgw.bearersOf)) && (forall r | r in requests :: AsksDistinctEbis(r)) ==>
            EbisDistinct(pgw.bearersOf)
    ensures AllConfigured(pgw.apnConfigs, old(pgw.sessionsById)) &&
            (forall r | r in requests :: ConfiguredApn(pgw.apnConfigs, r)) ==>
              pgw.leaked == old(pgw.leaked)
    ensures LeakedStays(old(pgw.leaked), pgw.leaked)
    ensures Extends(old(pgw.handedOut), pgw.handedOut) && SamePools(old(pgw.ipPools), pgw.ipPools)
    ensures forall p | p in pgw.ipPools && pgw.ipPools[p].pdnType.IPv4? && pgw.ipPools[p].prefixLen <= 30 ::
              IssuedSoundly(pgw.ipPools[p], Past(pgw.handedOut, p))
    ensures forall p | p in pgw.ipPools && pgw.ipPools[p].pdnType.IPv6? :: AllDistinct(Past(pgw.handedOut, p))
  {
    hide Extends, SamePools, LeakedStays, EbisDistinct, AllConfigured;
    NothingChanges(pgw);
    for n := 0 to |requests|
      invariant pgw.Valid()
      invariant forall s | s in pgw.sessionsById.Values :: s in old(pgw.sessionsById.Values) || fresh(s)
      invariant EbisDistinct(old(pgw.bearersOf)) && (forall r | r in requests[..n] :: AsksDistinctEbis(r)) ==>
                EbisDistinct(pgw.bearersOf)
      invariant AllConfigured(pgw.apnConfigs, old(pgw.sessionsById)) &&
                (forall r | r in requests[..n] :: ConfiguredApn(pgw.apnConfigs, r)) ==>
                  pgw.leaked == old(pgw.leaked) && AllConfigured(pgw.apnConfigs, pgw.sessionsById)
      invariant LeakedStays(old(pgw.leaked), pgw.leaked)
      invariant Extends(old(pgw.handedOut), pgw.handedOut) && SamePools(old(pgw.ipPools), pgw.ipPools)
    {
      hide PgwContext.Valid;
      assert forall r | r in requests[..n] :: r in requests[..n + 1];
      assert requests[n] in requests[..n + 1];
      ghost var leaked, history, pools := pgw.leaked, pgw.handedOut, pgw.ipPools;
      ServeOne(pgw, requests[n]);
      LeakedStaysThrough(old(pgw.leaked), leaked, pgw.leaked);
      ExtendsThrough(old(pgw.handedOut), history, pgw.handedOut);
      SamePoolsThrough(old(pgw.ipPools), pools, pgw.ipPools);
    }
    assert requests[..|requests|] == requests;
    HistoryIsSound(pgw);
  }

  lemma NothingChanges(pgw: PgwContext)
    ensures LeakedStays(pgw.leaked, pgw.leaked) && Extends(pgw.handedOut, pgw.handedOut) &&
            SamePools(pgw.ipPools, pgw.ipPools)
  {}

  lemma LeakedStaysThrough(a: map<string, set<Address>>, b: map<string, set<Address>>, c: map<string, set<Address>>)
    requires LeakedStays(a, b) && LeakedStays(b, c)
    ensures LeakedStays(a, c)
  {
    forall p ensures LeakedFrom(a, p) <= LeakedFrom(c, p) {
      assert LeakedFrom(a, p) <= LeakedFrom(b, p) && LeakedFrom(b, p) <= LeakedFrom(c, p);
    }
  }

  lemma HistoryIsSound(pgw: PgwContext)
    requires pgw.Valid()
    ensures forall p | p in pgw.ipPools && pgw.ipPools[p].pdnType.IPv4? && pgw.ipPools[p].prefixLen <= 30 ::
              IssuedSoundly(pgw.ipPools[p], Past(pgw.handedOut, p))
    ensures forall p | p in pgw.ipPools && pgw.ipPools[p].pdnType.IPv6? :: AllDistinct(Past(pgw.handedOut, p))
  {
    hide AddressesAgree, HistoryAgrees, IssuedSoundly, PgwContext.SessionsAgree, Held;
    forall p | p in pgw.ipPools && pgw.ipPools[p].pdnType.IPv6? ensures AllDistinct(Past(pgw.handedOut, p)) {
      PrefixesNeverRepeat(pgw.ipPools, pgw.ipCounter, pgw.handedOut, p);
    }
    forall p | p in pgw.ipPools && pgw.ipPools[p].pdnType.IPv4? && pgw.ipPools[p].prefixLen <= 30
      ensures IssuedSoundly(pgw.ipPools[p], Past(pgw.handedOut, p))
    {
      AddressesNeverRepeat(pgw.apnConfigs, pgw.ipPools, pgw.ipCounter, pgw.sessionsById, pgw.leaked, pgw.handedOut, p);
    }
  }

  twostate predicate StepKeeps(pgw: PgwContext, r: Request)
    reads pgw
  {
    && (EbisDistinct(old(pgw.bearersOf)) && AsksDistinctEbis(r) ==> EbisDistinct(pgw.bearersOf))
    && (AllConfigured(pgw.apnConfigs, old(pgw.sessionsById)) && ConfiguredApn(pgw.apnConfigs, r) ==>
          pgw.leaked == old(pgw.leaked) && AllConfigured(pgw.apnConfigs, pgw.sessionsById))
    && LeakedStays(old(pgw.leaked), pgw.leaked)
    && Extends(old(pgw.handedOut), pgw.handedOut) && SamePools(old(pgw.ipPools), pgw.ipPools)
  }

  method ServeOne(pgw: PgwContext, r: Request)
    requires pgw.Valid()
    modifies pgw, pgw.sessionsById.Values
    ensures pgw.Valid() && StepKeeps(pgw, r)
    ensures forall s | s in pgw.sessionsById.Values :: s in old(pgw.sessionsById.Values) || fresh(s)
  {
    NothingChanges(pgw);
    hide PgwContext.Valid, EbisDistinct, Extends, SamePools, LeakedStays, AllConfigured;
    match r
    case Create(_, _, _) => ServeCreate(pgw, r);
    case Delete(_) => ServeDelete(pgw, r);
    case CreateBearer(id, linked, qci, arp) => var _ := pgw.CreateDedicatedBearer(id, linked, qci, arp);
    case DeleteBearer(id, ebi) => var _ := pgw.DeleteDedicatedBearer(id, ebi);
  }

  method ServeCreate(pgw: PgwContext, r: Request)
    requires pgw.Valid() && r.Create?
    modifies pgw
    ensures pgw.Valid() && StepKeeps(pgw, r)
    ensures forall s | s in pgw.sessionsById.Values :: s in old(pgw.sessionsById.Values) || fresh(s)
  {
    hide PgwContext.Valid, EbisDistinct, NewBearers, AllocateFor, HistoryFor, Extends, SamePools, LeakedStays,
      HistoryAgrees;
    NothingChanges(pgw);
    if r.sessionId !in pgw.sessionsById && r.s5cTeid !in pgw.sessionsByTeid {
      ghost var config := ApnOrDefault(pgw.apnConfigs, r.request.apn);
      ValidHistory(pgw, config.ipPoolId, PdnTypeOf(r.request, config));
      hide ApnOrDefault, PdnTypeOf;
      var cause := pgw.CreateSession(r.request, r.sessionId, r.s5cTeid);
      assert AllConfigured(pgw.apnConfigs, old(pgw.sessionsById)) && ConfiguredApn(pgw.apnConfigs, r) ==>
        AllConfigured(pgw.apnConfigs, pgw.sessionsById);
      hide AllConfigured, ConfiguredApn;
      assert EbisDistinct(old(pgw.bearersOf)) && AsksDistinctEbis(r) ==> EbisDistinct(pgw.bearersOf) by {
        if EbisDistinct(old(pgw.bearersOf)) {
          EbisAfterCreate(old(pgw.bearersOf), r.sessionId, r.request.contexts, config, old(pgw.teidCounter));
        }
      }
      hide AsksDistinctEbis;
    }
  }

  lemma ValidHistory(pgw: PgwContext, pool: string, pdnType: PdnType)
    requires pgw.Valid()
    ensures PoolsUsable(pgw.ipPools)
    ensures Extends(pgw.handedOut, HistoryFor(pgw.handedOut, pgw.ipPools, pgw.ipCounter, pool, pdnType))
    ensures SamePools(pgw.ipPools, AllocatedFor(pgw.ipPools, pgw.ipCounter, pool, pdnType).0)
  {
    hide AddressesAgree, HistoryAgrees, PoolsUsable, AllocateFor, HistoryFor, Extends, SamePools,
      PgwContext.SessionsAgree;
    HistoryThroughAllocateFor(pgw.ipPools, pgw.ipCounter, pgw.handedOut, pool, pdnType);
  }

  method ServeDelete(pgw: PgwContext, r: Request)
    requires pgw.Valid() && r.Delete?
    modifies pgw
    ensures pgw.Valid() && StepKeeps(pgw, r)
    ensures forall s | s in pgw.sessionsById.Values :: s in old(pgw.sessionsById.Values)
  {
    hide PgwContext.Valid, PoolsAfterDelete, LeakedAfterDelete, Extends, SamePools, LeakedStays, EbisDistinct,
      AllConfigured;
    NothingChanges(pgw);
    if r.s5cTeid in pgw.sessionsByTeid { ValidDelete(pgw, r.s5cTeid); }
    var _ := pgw.DeleteSession(r.s5cTeid);
  }

  /** What the deletion of one session will keep. */
  lemma ValidDelete(pgw: PgwContext, s5cTeid: Id)
    requires pgw.Valid() && s5cTeid in pgw.sessionsByTeid
    ensures var s := pgw.sessionsByTeid[s5cTeid];
            && SamePools(pgw.ipPools, PoolsAfterDelete(pgw.apnConfigs, pgw.ipPools, s))
            && LeakedStays(pgw.leaked, LeakedAfterDelete(pgw.apnConfigs, pgw.leaked, s))
            && (EbisDistinct(pgw.bearersOf) ==> EbisDistinct(pgw.bearersOf - {s.sessionId}))
            && (AllConfigured(pgw.apnConfigs, pgw.sessionsById) ==>
                  AllConfigured(pgw.apnConfigs, pgw.sessionsById - {s.sessionId}) &&
                  LeakedAfterDelete(pgw.apnConfigs, pgw.leaked, s) == pgw.leaked)
  {
    hide AddressesAgree, HistoryAgrees, PoolsUsable, TeidIndex, ImsiIndex, TeidsDistinct, TeidsIssued, Total,
      PoolsAfterDelete, SamePools;
    var s := pgw.sessionsByTeid[s5cTeid];
    FoundByTeid(pgw.sessionsById, pgw.sessionsByTeid, s5cTeid);
    assert SamePools(pgw.ipPools, PoolsAfterDelete(pgw.apnConfigs, pgw.ipPools, s)) by {
      HistoryAfterDelete(pgw.apnConfigs, pgw.ipPools, pgw.ipCounter, pgw.handedOut, s);
    }
    LeakedAfterDeleteStays(pgw.apnConfigs, pgw.leaked, s);
    hide LeakedStays;
  }

  lemma LeakedAfterDeleteStays(apns: map<string, ApnConfig>, leaked: map<string, set<Address>>, s: PgwSession)
    ensures LeakedStays(leaked, LeakedAfterDelete(apns, leaked, s))
  {}

  lemma {:induction false} WithoutAbsent(s: seq<Address>, a: Address)
    requires a !in s
    ensures WithoutAddress(s, a) == s
  {
    if s == [] {
    } else {
      WithoutAbsent(s[1..], a);
    }
  }
}
