/** Child SA keys and the simulated XFRM tables (5G_Emulator_API/core_network/ipsec.py). HMAC-SHA-256 is
    a parameter with a 32-byte result. */
module Ipsec {
  import opened Common

  type Bytes = seq<bv8>
  type Digest = d: Bytes | |d| == 32 witness seq(32, _ => 0)
  type Hmac = (Bytes, Bytes) -> Digest

  // ---------- prf+ ----------

  datatype Failure = CounterOverflow

  const MAX_ROUNDS := 255

  /** T_n of section 2.13 of RFC 7296: T_n = prf(K, T_{n-1} | S | n), with T_0 empty. */
  function T(prf: Hmac, key: Bytes, seed: Bytes, n: nat): Bytes
    requires n <= MAX_ROUNDS
  {
    if n == 0 then [] else prf(key, T(prf, key, seed, n - 1) + seed + [n as bv8])
  }

  /** The first n blocks of the stream. */
  function Stream(prf: Hmac, key: Bytes, seed: Bytes, n: nat): (stream: Bytes)
    requires n <= MAX_ROUNDS
    ensures |stream| == 32 * n
  {
    if n == 0 then [] else Stream(prf, key, seed, n - 1) + T(prf, key, seed, n)
  }

  /** How many blocks four keys take. */
  function Rounds(keyLength: int): nat { if keyLength <= 0 then 0 else (keyLength + 7) / 8 }

  datatype Keys = Keys(encrItoR: Bytes, encrRtoI: Bytes, integItoR: Bytes, integRtoI: Bytes)

  /** The loop takes exactly ceil(length / 8) rounds of the stream, and fails exactly when that is more than
      one octet can count. */
  method GenerateKeymat(prf: Hmac, key: Bytes, nonceI: Bytes, nonceR: Bytes, keyLength: int)
    returns (keymat: Result<Bytes, Failure>)
    ensures keymat.Ok? <==> keyLength <= 2040
    ensures keymat.Ok? ==>
            Rounds(keyLength) <= MAX_ROUNDS && keymat.value == Stream(prf, key, nonceI + nonceR, Rounds(keyLength))
  {
    var seed := nonceI + nonceR;
    var material: Bytes := [];
    var t: Bytes := [];
    var counter := 1;
    while |material| < keyLength * 4
      invariant 1 <= counter <= 256
      invariant t == T(prf, key, seed, counter - 1)
      invariant material == Stream(prf, key, seed, counter - 1)
      invariant counter - 1 <= Rounds(keyLength)
      decreases keyLength * 4 - |material|
    {
      if counter > 255 { return Err(CounterOverflow); }
      t := prf(key, t + seed + [counter as bv8]);
      material := material + t;
      counter := counter + 1;
    }
    assert counter - 1 == Rounds(keyLength);
    keymat := Ok(material);
  }

  /** Four keys in a row; a slice stops at the end of the material, and of none there is none. */
  function Split(keymat: Bytes, keyLength: int): Keys {
    if keyLength <= 0 || |keymat| < 4 * keyLength then Keys([], [], [], [])
    else Keys(keymat[..keyLength], keymat[keyLength..2 * keyLength], keymat[2 * keyLength..3 * keyLength],
              keymat[3 * keyLength..4 * keyLength])
  }

  method GenerateChildSaKeys(prf: Hmac, key: Bytes, nonceI: Bytes, nonceR: Bytes, keyLength: int)
    returns (keys: Result<Keys, Failure>)
    ensures keys.Ok? <==> keyLength <= 2040
    ensures keys.Ok? ==> keys.value == Split(Stream(prf, key, nonceI + nonceR, Rounds(keyLength)), keyLength)
  {
    var keymat := GenerateKeymat(prf, key, nonceI, nonceR, keyLength);
    if keymat.Err? { return Err(keymat.error); }
    keys := Ok(Split(keymat.value, keyLength));
  }

  /** A shorter stream is the beginning of a longer one. */
  lemma {:induction false} StreamIsPrefix(prf: Hmac, key: Bytes, seed: Bytes, m: nat, n: nat)
    requires m <= n <= MAX_ROUNDS
    ensures Stream(prf, key, seed, m) == Stream(prf, key, seed, n)[..32 * m]
  {
    if m == n {
    } else {
      StreamIsPrefix(prf, key, seed, m, n - 1);
    }
  }

  /** The four keys are consecutive, have the length asked for, and together are the first bytes of the
      prf+ stream, of which no round more is made than they need. */
  lemma KeysAreConsecutive(prf: Hmac, key: Bytes, seed: Bytes, keyLength: nat)
    requires keyLength <= 2040
    ensures var rounds := Rounds(keyLength);
            rounds <= MAX_ROUNDS && 32 * rounds >= 4 * keyLength && (rounds > 0 ==> 32 * (rounds - 1) < 4 * keyLength)
    ensures var keys := Split(Stream(prf, key, seed, Rounds(keyLength)), keyLength);
            && |keys.encrItoR| == |keys.encrRtoI| == |keys.integItoR| == |keys.integRtoI| == keyLength
            && keys.encrItoR + keys.encrRtoI + keys.integItoR + keys.integRtoI ==
                 Stream(prf, key, seed, MAX_ROUNDS)[..4 * keyLength]
  {
    StreamIsPrefix(prf, key, seed, Rounds(keyLength), MAX_ROUNDS);
    var stream := Stream(prf, key, seed, Rounds(keyLength));
    FourSlices(stream, keyLength);
    assert stream[..4 * keyLength] == Stream(prf, key, seed, MAX_ROUNDS)[..4 * keyLength];
  }

  lemma LastBlock(prf: Hmac, key: Bytes, seed: Bytes, n: nat)
    requires 1 <= n <= MAX_ROUNDS
    ensures Stream(prf, key, seed, n)[32 * (n - 1)..] == T(prf, key, seed, n)
  {}

  lemma BlockOfStream(prf: Hmac, key: Bytes, seed: Bytes, n: nat, i: nat)
    requires 1 <= i <= n <= MAX_ROUNDS
    ensures Stream(prf, key, seed, n)[32 * (i - 1)..32 * i] == T(prf, key, seed, i)
  {
    StreamIsPrefix(prf, key, seed, i, n);
    LastBlock(prf, key, seed, i);
    hide Stream, T;
    var stream := Stream(prf, key, seed, n);
    assert stream[32 * (i - 1)..32 * i] == stream[..32 * i][32 * (i - 1)..];
  }

  /** The stream in chained blocks: each is the prf of the block before it, the seed and its own number. */
  lemma StreamIsChained(prf: Hmac, key: Bytes, seed: Bytes, n: nat, i: nat)
    requires 1 <= i <= n <= MAX_ROUNDS
    ensures var stream := Stream(prf, key, seed, n);
            stream[32 * (i - 1)..32 * i] ==
            prf(key, (if i == 1 then [] else stream[32 * (i - 2)..32 * (i - 1)]) + seed + [i as bv8])
  {
    BlockOfStream(prf, key, seed, n, i);
    if i > 1 { BlockOfStream(prf, key, seed, n, i - 1); }
    hide Stream;
  }

  lemma FourSlices(stream: Bytes, n: nat)
    requires |stream| >= 4 * n
    ensures stream[..n] + stream[n..2 * n] + stream[2 * n..3 * n] + stream[3 * n..4 * n] == stream[..4 * n]
  {}

  // ---------- child SAs and the tables ----------

  datatype Direction = In | Out | Fwd

  datatype Encap = NoEncap | UdpEncap(sport: int, dport: int)

  datatype XfrmState = XfrmState(
    src: string, dst: string, spi: int, ifid: int, encrAlgo: string, encrKey: Bytes,
    authAlgo: Option<string>, authKey: Bytes, authTrunc: int, esn: bool, encap: Encap)

  datatype XfrmPolicy = XfrmPolicy(
    srcNet: string, dstNet: string, proto: int, dir: Direction, ifid: int, tmplSrc: string, tmplDst: string,
    tmplSpi: int)

  /** The parameters of a child SA. Algorithms are their IKEv2 transform numbers. */
  datatype ChildParams = ChildParams(
    inboundSpi: int, outboundSpi: int, encr: int, integ: Option<int>, keys: Keys, localIp: string, peerIp: string,
    selectorLocal: string, selectorRemote: string, proto: int, encapsulate: bool, natPort: int, n3iwfPort: int,
    esn: bool)

  function EncrName(encr: int): string {
    match encr
    case 2 => "cbc(des)" case 3 => "cbc(des3_ede)" case 6 => "cbc(cast5)" case 7 => "cbc(blowfish)"
    case 11 => "ecb(cipher_null)" case 13 => "rfc3686(ctr(aes))" case 20 => "rfc4106(gcm(aes))" case _ => "cbc(aes)"
  }

  function IntegName(integ: Option<int>): Option<string> {
    match integ
    case None => None
    case Some(1) => Some("hmac(md5)") case Some(2) => Some("hmac(sha1)") case Some(5) => Some("xcbc(aes)")
    case Some(13) => Some("hmac(sha384)") case Some(14) => Some("hmac(sha512)") case Some(_) => Some("hmac(sha256)")
  }

  function TruncLength(integ: Option<int>): int {
    match integ
    case None => 0
    case Some(1) => 96 case Some(2) => 96 case Some(5) => 96
    case Some(13) => 192 case Some(14) => 256 case Some(_) => 128
  }

  function InboundState(initiator: bool, ifid: int, p: ChildParams): XfrmState {
    XfrmState(p.peerIp, p.localIp, p.inboundSpi, ifid, EncrName(p.encr),
              if initiator then p.keys.encrRtoI else p.keys.encrItoR, IntegName(p.integ),
              if initiator then p.keys.integRtoI else p.keys.integItoR, TruncLength(p.integ), p.esn, NoEncap)
  }

  function OutboundState(initiator: bool, ifid: int, p: ChildParams): XfrmState {
    XfrmState(p.localIp, p.peerIp, p.outboundSpi, ifid, EncrName(p.encr),
              if initiator then p.keys.encrItoR else p.keys.encrRtoI, IntegName(p.integ),
              if initiator then p.keys.integItoR else p.keys.integRtoI, TruncLength(p.integ), p.esn,
              if p.encapsulate then UdpEncap(p.n3iwfPort, p.natPort) else NoEncap)
  }

  function InboundPolicy(ifid: int, p: ChildParams): XfrmPolicy {
    XfrmPolicy(p.selectorRemote, p.selectorLocal, p.proto, In, ifid, p.peerIp, p.localIp, p.inboundSpi)
  }

  function OutboundPolicy(ifid: int, p: ChildParams): XfrmPolicy {
    XfrmPolicy(p.selectorLocal, p.selectorRemote, p.proto, Out, ifid, p.localIp, p.peerIp, p.outboundSpi)
  }

  /** What deletion goes by: neither the interface nor, for policies, the SPI. */
  datatype StateKey = StateKey(src: string, dst: string, spi: int)
  datatype PolicyKey = PolicyKey(srcNet: string, dstNet: string, dir: Direction)

  function KeyOfState(s: XfrmState): StateKey { StateKey(s.src, s.dst, s.spi) }
  function KeyOfPolicy(p: XfrmPolicy): PolicyKey { PolicyKey(p.srcNet, p.dstNet, p.dir) }

  function StateKeys(list: seq<XfrmState>): set<StateKey> { set s | s in list :: KeyOfState(s) }
  function PolicyKeys(list: seq<XfrmPolicy>): set<PolicyKey> { set p | p in list :: KeyOfPolicy(p) }

  function StatesWithout(list: seq<XfrmState>, keys: set<StateKey>): seq<XfrmState> {
    if list == [] then []
    else
      var n := |list| - 1;
      StatesWithout(list[..n], keys) + if KeyOfState(list[n]) in keys then [] else [list[n]]
  }

  function PoliciesWithout(list: seq<XfrmPolicy>, keys: set<PolicyKey>): seq<XfrmPolicy> {
    if list == [] then []
    else
      var n := |list| - 1;
      PoliciesWithout(list[..n], keys) + if KeyOfPolicy(list[n]) in keys then [] else [list[n]]
  }

  // ---------- filtering ----------

  lemma {:induction false} StatesWithoutMember(list: seq<XfrmState>, keys: set<StateKey>, s: XfrmState)
    ensures s in StatesWithout(list, keys) <==> s in list && KeyOfState(s) !in keys
  {
    if list == [] {
    } else {
      StatesWithoutMember(list[..|list| - 1], keys, s);
      assert list == list[..|list| - 1] + [list[|list| - 1]];
    }
  }

  lemma {:induction false} PoliciesWithoutMember(list: seq<XfrmPolicy>, keys: set<PolicyKey>, p: XfrmPolicy)
    ensures p in PoliciesWithout(list, keys) <==> p in list && KeyOfPolicy(p) !in keys
  {
    if list == [] {
    } else {
      PoliciesWithoutMember(list[..|list| - 1], keys, p);
      assert list == list[..|list| - 1] + [list[|list| - 1]];
    }
  }

  /** One pass for each key is one pass for all. */
  lemma {:induction false} StatesWithoutTwice(list: seq<XfrmState>, a: set<StateKey>, b: set<StateKey>)
    ensures StatesWithout(StatesWithout(list, a), b) == StatesWithout(list, a + b)
  {
    if list == [] {
    } else {
      var n := |list| - 1;
      StatesWithoutTwice(list[..n], a, b);
      var before := StatesWithout(list[..n], a);
      assert (before + [list[n]])[..|before|] == before;
      assert StatesWithout(list, a) == before || StatesWithout(list, a) == before + [list[n]];
    }
  }

  lemma {:induction false} PoliciesWithoutTwice(list: seq<XfrmPolicy>, a: set<PolicyKey>, b: set<PolicyKey>)
    ensures PoliciesWithout(PoliciesWithout(list, a), b) == PoliciesWithout(list, a + b)
  {
    if list == [] {
    } else {
      var n := |list| - 1;
      PoliciesWithoutTwice(list[..n], a, b);
      var before := PoliciesWithout(list[..n], a);
      assert (before + [list[n]])[..|before|] == before;
      assert PoliciesWithout(list, a) == before || PoliciesWithout(list, a) == before + [list[n]];
    }
  }

  /** Filtering leaves the list alone exactly when it has none of the keys. */
  lemma {:induction false} StatesUntouched(list: seq<XfrmState>, keys: set<StateKey>)
    ensures |StatesWithout(list, keys)| <= |list|
    ensures StatesWithout(list, keys) == list <==> StateKeys(list) !! keys
  {
    if list == [] {
    } else {
      var n := |list| - 1;
      StatesUntouched(list[..n], keys);
      assert list == list[..n] + [list[n]];
      assert StateKeys(list) == StateKeys(list[..n]) + {KeyOfState(list[n])};
    }
  }

  lemma {:induction false} PoliciesUntouched(list: seq<XfrmPolicy>, keys: set<PolicyKey>)
    ensures |PoliciesWithout(list, keys)| <= |list|
    ensures PoliciesWithout(list, keys) == list <==> PolicyKeys(list) !! keys
  {
    if list == [] {
    } else {
      var n := |list| - 1;
      PoliciesUntouched(list[..n], keys);
      assert list == list[..n] + [list[n]];
      assert PolicyKeys(list) == PolicyKeys(list[..n]) + {KeyOfPolicy(list[n])};
    }
  }

  // ---------- install and clean up ----------

  datatype Tables = Tables(states: seq<XfrmState>, policies: seq<XfrmPolicy>)

  function Installed(initiator: bool, ifid: int, p: ChildParams): Tables {
    Tables([InboundState(initiator, ifid, p), OutboundState(initiator, ifid, p)],
           [InboundPolicy(ifid, p), OutboundPolicy(ifid, p)])
  }

  function Join(a: Tables, b: Tables): Tables { Tables(a.states + b.states, a.policies + b.policies) }

  /** The tables without every entry that has the key of one of `mine`. */
  function CleanUp(active: Tables, mine: Tables): Tables {
    Tables(StatesWithout(active.states, StateKeys(mine.states)),
           PoliciesWithout(active.policies, PolicyKeys(mine.policies)))
  }

  predicate KeysUnused(active: Tables, mine: Tables) {
    StateKeys(active.states) !! StateKeys(mine.states) && PolicyKeys(active.policies) !! PolicyKeys(mine.policies)
  }

  /** Cleaning up removes exactly the entries with the child's keys and keeps the others. */
  lemma CleanUpRemovesExactly(active: Tables, mine: Tables, s: XfrmState, p: XfrmPolicy)
    ensures s in CleanUp(active, mine).states <==> s in active.states && KeyOfState(s) !in StateKeys(mine.states)
    ensures p in CleanUp(active, mine).policies <==>
            p in active.policies && KeyOfPolicy(p) !in PolicyKeys(mine.policies)
  {
    StatesWithoutMember(active.states, StateKeys(mine.states), s);
    PoliciesWithoutMember(active.policies, PolicyKeys(mine.policies), p);
  }

  lemma StatesWithoutOneMore(list: seq<XfrmState>, s: XfrmState, keys: set<StateKey>)
    ensures StatesWithout(list + [s], keys) == StatesWithout(list, keys) + if KeyOfState(s) in keys then [] else [s]
  {
    assert (list + [s])[..|list|] == list;
  }

  lemma {:induction false} StatesWithoutAppend(a: seq<XfrmState>, b: seq<XfrmState>, keys: set<StateKey>)
    ensures StatesWithout(a + b, keys) == StatesWithout(a, keys) + StatesWithout(b, keys)
  {
    if b == [] {
      assert a + b == a;
    } else {
      hide StatesWithout, KeyOfState;
      var n := |b| - 1;
      var rest, last := b[..n], b[n];
      assert b == rest + [last] && a + b == (a + rest) + [last];
      StatesWithoutAppend(a, rest, keys);
      StatesWithoutOneMore(a + rest, last, keys);
      StatesWithoutOneMore(rest, last, keys);
    }
  }

  lemma PoliciesWithoutOneMore(list: seq<XfrmPolicy>, p: XfrmPolicy, keys: set<PolicyKey>)
    ensures PoliciesWithout(list + [p], keys) ==
            PoliciesWithout(list, keys) + if KeyOfPolicy(p) in keys then [] else [p]
  {
    assert (list + [p])[..|list|] == list;
  }

  lemma {:induction false} PoliciesWithoutAppend(a: seq<XfrmPolicy>, b: seq<XfrmPolicy>, keys: set<PolicyKey>)
    ensures PoliciesWithout(a + b, keys) == PoliciesWithout(a, keys) + PoliciesWithout(b, keys)
  {
    if b == [] {
      assert a + b == a;
    } else {
      hide PoliciesWithout, KeyOfPolicy;
      var n := |b| - 1;
      var rest, last := b[..n], b[n];
      PoliciesWithoutAppend(a, rest, keys);
      PoliciesWithoutOneMore(a + rest, last, keys);
      PoliciesWithoutOneMore(rest, last, keys);
      assert b == rest + [last] && a + b == (a + rest) + [last];
    }
  }

  lemma {:induction false} NoStatesLeft(list: seq<XfrmState>, keys: set<StateKey>)
    requires StateKeys(list) <= keys
    ensures StatesWithout(list, keys) == []
  {
    if list == [] {
    } else {
      assert KeyOfState(list[|list| - 1]) in StateKeys(list);
      assert StateKeys(list[..|list| - 1]) <= StateKeys(list);
      NoStatesLeft(list[..|list| - 1], keys);
    }
  }

  lemma {:induction false} NoPoliciesLeft(list: seq<XfrmPolicy>, keys: set<PolicyKey>)
    requires PolicyKeys(list) <= keys
    ensures PoliciesWithout(list, keys) == []
  {
    if list == [] {
    } else {
      assert KeyOfPolicy(list[|list| - 1]) in PolicyKeys(list);
      assert PolicyKeys(list[..|list| - 1]) <= PolicyKeys(list);
      NoPoliciesLeft(list[..|list| - 1], keys);
    }
  }

  /** Installing and cleaning up gives the tables back, order included, exactly when none of the child's
      keys was in use before; either way no entry of the child stays. */
  lemma CleanUpUndoesInstall(active: Tables, mine: Tables)
    ensures CleanUp(Join(active, mine), mine) == CleanUp(active, mine)
    ensures CleanUp(Join(active, mine), mine) == active <==> KeysUnused(active, mine)
  {
    StatesWithoutAppend(active.states, mine.states, StateKeys(mine.states));
    PoliciesWithoutAppend(active.policies, mine.policies, PolicyKeys(mine.policies));
    NoStatesLeft(mine.states, StateKeys(mine.states));
    NoPoliciesLeft(mine.policies, PolicyKeys(mine.policies));
    StatesUntouched(active.states, StateKeys(mine.states));
    PoliciesUntouched(active.policies, PolicyKeys(mine.policies));
  }

  /** Cleaning up one child spares another exactly when they have no key in common. */
  lemma CleanUpSparesOthers(active: Tables, mine: Tables, other: Tables)
    requires forall s | s in other.states :: s in active.states
    requires forall p | p in other.policies :: p in active.policies
    ensures ((forall s | s in other.states :: s in CleanUp(active, mine).states) &&
             (forall p | p in other.policies :: p in CleanUp(active, mine).policies))
            <==> KeysUnused(other, mine)
  {
    forall s ensures s in CleanUp(active, mine).states <==>
      s in active.states && KeyOfState(s) !in StateKeys(mine.states)
    {
      StatesWithoutMember(active.states, StateKeys(mine.states), s);
    }
    forall p ensures p in CleanUp(active, mine).policies <==>
      p in active.policies && KeyOfPolicy(p) !in PolicyKeys(mine.policies)
    {
      PoliciesWithoutMember(active.policies, PolicyKeys(mine.policies), p);
    }
    hide CleanUp, KeyOfState, KeyOfPolicy;
    if (forall s | s in other.states :: s in CleanUp(active, mine).states) &&
       (forall p | p in other.policies :: p in CleanUp(active, mine).policies)
    {
      assert forall k | k in StateKeys(other.states) :: k !in StateKeys(mine.states);
      assert forall k | k in PolicyKeys(other.policies) :: k !in PolicyKeys(mine.policies);
    }
    if KeysUnused(other, mine) {
      assert forall s | s in other.states :: KeyOfState(s) in StateKeys(other.states);
      assert forall p | p in other.policies :: KeyOfPolicy(p) in PolicyKeys(other.policies);
    }
  }

  /** Two child SAs with the same traffic selectors, such as the default ones, share their policy keys
      whatever their peers, SPIs and interfaces: cleaning up one takes the policies of the other. */
  lemma SameSelectorsCollide(i1: bool, i2: bool, ifid1: int, ifid2: int, p: ChildParams, q: ChildParams)
    requires p.selectorLocal == q.selectorLocal && p.selectorRemote == q.selectorRemote
    ensures var mine, other := Installed(i1, ifid1, p), Installed(i2, ifid2, q);
            !KeysUnused(other, mine) && CleanUp(other, mine).policies == []
  {
    var mine, other := Installed(i1, ifid1, p), Installed(i2, ifid2, q);
    assert mine.policies[0] in mine.policies && mine.policies[1] in mine.policies;
    assert KeyOfPolicy(mine.policies[0]) == KeyOfPolicy(other.policies[0]);
    assert KeyOfPolicy(mine.policies[1]) == KeyOfPolicy(other.policies[1]);
    assert forall r | r in other.policies :: r == other.policies[0] || r == other.policies[1];
    assert PolicyKeys(other.policies) <= PolicyKeys(mine.policies);
    NoPoliciesLeft(other.policies, PolicyKeys(mine.policies));
    assert KeyOfPolicy(other.policies[0]) in PolicyKeys(other.policies);
  }

  /** The same child SA seen from the two ends. */
  predicate Mirrored(p: ChildParams, q: ChildParams) {
    && p.localIp == q.peerIp && p.peerIp == q.localIp && p.inboundSpi == q.outboundSpi && p.outboundSpi == q.inboundSpi
    && p.encr == q.encr && p.integ == q.integ && p.keys == q.keys && p.esn == q.esn
  }

  predicate Agree(a: XfrmState, b: XfrmState) {
    && KeyOfState(a) == KeyOfState(b) && a.encrAlgo == b.encrAlgo && a.encrKey == b.encrKey && a.authAlgo == b.authAlgo
    && a.authKey == b.authKey && a.authTrunc == b.authTrunc && a.esn == b.esn
  }

  /** What the initiator sends the responder can receive, and the other way round; with the roles confused
      they agree only if the two directions have the same keys. */
  lemma MirroredEndsAgree(p: ChildParams, q: ChildParams, ifid1: int, ifid2: int, i1: bool, i2: bool)
    requires Mirrored(p, q)
    ensures Agree(OutboundState(i1, ifid1, p), InboundState(i2, ifid2, q)) <==>
            i1 != i2 || (p.keys.encrItoR == p.keys.encrRtoI && p.keys.integItoR == p.keys.integRtoI)
    ensures Agree(OutboundState(i2, ifid2, q), InboundState(i1, ifid1, p)) <==>
            i1 != i2 || (p.keys.encrItoR == p.keys.encrRtoI && p.keys.integItoR == p.keys.integRtoI)
  {
    hide EncrName, IntegName, TruncLength;
  }

  /** What goes out by the one policy comes in by the other. */
  predicate Fit(a: XfrmPolicy, b: XfrmPolicy) {
    && a.srcNet == b.srcNet && a.dstNet == b.dstNet && a.proto == b.proto
    && a.tmplSrc == b.tmplSrc && a.tmplDst == b.tmplDst && a.tmplSpi == b.tmplSpi && {a.dir, b.dir} == {In, Out}
  }

  /** The policies at the two ends fit, networks, protocol and template, exactly when the selectors are exchanged
      and the protocol is the same; at one end the networks of the two are always exchanged. */
  lemma MirroredPoliciesFit(p: ChildParams, q: ChildParams, ifid1: int, ifid2: int)
    requires Mirrored(p, q)
    ensures Fit(OutboundPolicy(ifid1, p), InboundPolicy(ifid2, q)) <==>
            p.selectorLocal == q.selectorRemote && p.selectorRemote == q.selectorLocal && p.proto == q.proto
    ensures Fit(OutboundPolicy(ifid2, q), InboundPolicy(ifid1, p)) <==>
            p.selectorLocal == q.selectorRemote && p.selectorRemote == q.selectorLocal && p.proto == q.proto
    ensures var here, there := InboundPolicy(ifid1, p), OutboundPolicy(ifid1, p);
            here.srcNet == there.dstNet && here.dstNet == there.srcNet
  {
    assert OutboundPolicy(ifid1, p).dir == Out && InboundPolicy(ifid2, q).dir == In;
  }

  const ENCR_NAMES := map[
    2 := "cbc(des)", 3 := "cbc(des3_ede)", 6 := "cbc(cast5)", 7 := "cbc(blowfish)", 11 := "ecb(cipher_null)",
    12 := "cbc(aes)", 13 := "rfc3686(ctr(aes))", 20 := "rfc4106(gcm(aes))"]

  /** Each integrity name with the number of bits its tag is cut to. */
  const INTEG_NAMES := map[
    1 := ("hmac(md5)", 96), 2 := ("hmac(sha1)", 96), 5 := ("xcbc(aes)", 96),
    12 := ("hmac(sha256)", 128), 13 := ("hmac(sha384)", 192), 14 := ("hmac(sha512)", 256)]

  /** The state runs between the given ends under the child's algorithms and the given keys. */
  predicate Carries(p: ChildParams, ifid: int, s: XfrmState, src: string, dst: string, spi: int, encr: Bytes,
      integ: Bytes)
  {
    && s.src == src && s.dst == dst && s.spi == spi && s.ifid == ifid && s.esn == p.esn
    && s.encrKey == encr && s.authKey == integ
    && s.encrAlgo == (if p.encr in ENCR_NAMES then ENCR_NAMES[p.encr] else "cbc(aes)")
    && (p.integ.None? ==> s.authAlgo == None && s.authTrunc == 0)
    && (p.integ.Some? ==>
          var (name, bits) := INTEG_NAMES[if p.integ.value in INTEG_NAMES then p.integ.value else 12];
          s.authAlgo == Some(name) && s.authTrunc == bits)
  }

  /** What a child SA needs in the tables. One policy for each direction: what comes in goes from the remote
      selector to the local one, what goes out the other way, each through the tunnel of the state beside it.
      One state into the local address, with the keys of the peer's direction, and one out to the peer, which
      alone is wrapped in UDP, if asked. */
  predicate Protects(initiator: bool, ifid: int, p: ChildParams, states: seq<XfrmState>, policies: seq<XfrmPolicy>) {
    && |states| == |policies| == 2 && policies[0].dir == In && policies[1].dir == Out
    && (forall i | i in {0, 1} ::
          && (policies[i].tmplSrc, policies[i].tmplDst, policies[i].tmplSpi) ==
             (states[i].src, states[i].dst, states[i].spi)
          && policies[i].proto == p.proto && policies[i].ifid == ifid)
    && (policies[0].srcNet, policies[0].dstNet) == (p.selectorRemote, p.selectorLocal)
    && (policies[1].srcNet, policies[1].dstNet) == (p.selectorLocal, p.selectorRemote)
    && (if initiator
        then Carries(p, ifid, states[0], p.peerIp, p.localIp, p.inboundSpi, p.keys.encrRtoI, p.keys.integRtoI)
        else Carries(p, ifid, states[0], p.peerIp, p.localIp, p.inboundSpi, p.keys.encrItoR, p.keys.integItoR))
    && (if initiator
        then Carries(p, ifid, states[1], p.localIp, p.peerIp, p.outboundSpi, p.keys.encrItoR, p.keys.integItoR)
        else Carries(p, ifid, states[1], p.localIp, p.peerIp, p.outboundSpi, p.keys.encrRtoI, p.keys.integRtoI))
    && states[0].encap == NoEncap
    && states[1].encap == (if p.encapsulate then UdpEncap(p.n3iwfPort, p.natPort) else NoEncap)
  }

  lemma InstalledProtects(initiator: bool, ifid: int, p: ChildParams)
    ensures Protects(initiator, ifid, p, Installed(initiator, ifid, p).states, Installed(initiator, ifid, p).policies)
  {
    assert EncrName(p.encr) == if p.encr in ENCR_NAMES then ENCR_NAMES[p.encr] else "cbc(aes)";
    IntegNames(p.integ);
    hide EncrName, IntegName, TruncLength;
  }

  lemma IntegNames(integ: Option<int>)
    ensures integ.Some? ==>
            (IntegName(integ), TruncLength(integ)) ==
            var (name, bits) := INTEG_NAMES[if integ.value in INTEG_NAMES then integ.value else 12]; (Some(name), bits)
  {
    if integ.Some? {
      var i := integ.value;
      if i == 1 || i == 2 || i == 5 || i == 13 || i == 14 {
      } else {
        assert i in INTEG_NAMES ==> i == 12;
      }
    }
  }

  // ---------- the manager ----------

  class ChildSa {
    const params: ChildParams
    var states: seq<XfrmState>
    var policies: seq<XfrmPolicy>

    constructor (params: ChildParams)
      ensures this.params == params && View() == Tables([], [])
    {
      this.params, states, policies := params, [], [];
    }

    function View(): Tables reads this { Tables(states, policies) }
  }

  class XfrmManager {
    var activeStates: seq<XfrmState>
    var activePolicies: seq<XfrmPolicy>

    constructor ()
      ensures View() == Tables([], [])
    {
      activeStates, activePolicies := [], [];
    }

    function View(): Tables reads this { Tables(activeStates, activePolicies) }

    method AddXfrmState(s: XfrmState) returns (ok: bool)
      modifies this`activeStates
      ensures ok && activeStates == old(activeStates) + [s]
    {
      activeStates := activeStates + [s];
      ok := true;
    }

    method AddXfrmPolicy(p: XfrmPolicy) returns (ok: bool)
      modifies this`activePolicies
      ensures ok && activePolicies == old(activePolicies) + [p]
    {
      activePolicies := activePolicies + [p];
      ok := true;
    }

    method ApplyXfrmRule(initiator: bool, ifid: int, child: ChildSa) returns (success: bool)
      modifies this, child
      ensures success
      ensures View() == Join(old(View()), Installed(initiator, ifid, child.params))
      ensures child.View() == Join(old(child.View()), Installed(initiator, ifid, child.params))
      ensures activeStates[..|old(activeStates)|] == old(activeStates)
      ensures activePolicies[..|old(activePolicies)|] == old(activePolicies)
      ensures Protects(initiator, ifid, child.params,
                       activeStates[|old(activeStates)|..], activePolicies[|old(activePolicies)|..])
    {
      InstalledProtects(initiator, ifid, child.params);
      hide InboundState, OutboundState, InboundPolicy, OutboundPolicy, Protects;
      var inbound, outbound :=
        InboundState(initiator, ifid, child.params), OutboundState(initiator, ifid, child.params);
      var inPolicy, outPolicy := InboundPolicy(ifid, child.params), OutboundPolicy(ifid, child.params);
      var s1 := AddXfrmState(inbound);
      var s2 := AddXfrmPolicy(inPolicy);
      var s3 := AddXfrmState(outbound);
      var s4 := AddXfrmPolicy(outPolicy);
      success := s1 && s2 && s3 && s4;
      if success {
        child.states := child.states + [inbound, outbound];
        child.policies := child.policies + [inPolicy, outPolicy];
      }
      assert activeStates[|old(activeStates)|..] == [inbound, outbound];
      assert activePolicies[|old(activePolicies)|..] == [inPolicy, outPolicy];
    }

    method DeleteXfrmState(src: string, dst: string, spi: int)
      modifies this`activeStates
      ensures activeStates == StatesWithout(old(activeStates), {StateKey(src, dst, spi)})
    {
      var list := activeStates;
      activeStates := [];
      for i := 0 to |list|
        invariant activeStates == StatesWithout(list[..i], {StateKey(src, dst, spi)})
      {
        assert list[..i + 1][..i] == list[..i];
        if !(list[i].src == src && list[i].dst == dst && list[i].spi == spi) {
          activeStates := activeStates + [list[i]];
        }
      }
      assert list[..|list|] == list;
    }

    method DeleteXfrmPolicy(srcNet: string, dstNet: string, dir: Direction)
      modifies this`activePolicies
      ensures activePolicies == PoliciesWithout(old(activePolicies), {PolicyKey(srcNet, dstNet, dir)})
    {
      var list := activePolicies;
      activePolicies := [];
      for i := 0 to |list|
        invariant activePolicies == PoliciesWithout(list[..i], {PolicyKey(srcNet, dstNet, dir)})
      {
        assert list[..i + 1][..i] == list[..i];
        if !(list[i].srcNet == srcNet && list[i].dstNet == dstNet && list[i].dir == dir) {
          activePolicies := activePolicies + [list[i]];
        }
      }
      assert list[..|list|] == list;
    }

    method DeleteStates(list: seq<XfrmState>)
      modifies this`activeStates
      ensures activeStates == StatesWithout(old(activeStates), StateKeys(list))
    {
      hide StatesWithout;
      ghost var before := activeStates;
      StatesUntouched(before, {});
      assert StateKeys(list[..0]) == {};
      for i := 0 to |list|
        invariant activeStates == StatesWithout(before, StateKeys(list[..i]))
      {
        DeleteXfrmState(list[i].src, list[i].dst, list[i].spi);
        StatesWithoutTwice(before, StateKeys(list[..i]), {KeyOfState(list[i])});
        assert list[..i + 1] == list[..i] + [list[i]];
        assert StateKeys(list[..i + 1]) == StateKeys(list[..i]) + {KeyOfState(list[i])};
      }
      assert list[..|list|] == list;
    }

    method DeletePolicies(list: seq<XfrmPolicy>)
      modifies this`activePolicies
      ensures activePolicies == PoliciesWithout(old(activePolicies), PolicyKeys(list))
    {
      hide PoliciesWithout;
      ghost var before := activePolicies;
      PoliciesUntouched(before, {});
      assert PolicyKeys(list[..0]) == {};
      for i := 0 to |list|
        invariant activePolicies == PoliciesWithout(before, PolicyKeys(list[..i]))
      {
        DeleteXfrmPolicy(list[i].srcNet, list[i].dstNet, list[i].dir);
        PoliciesWithoutTwice(before, PolicyKeys(list[..i]), {KeyOfPolicy(list[i])});
        assert list[..i + 1] == list[..i] + [list[i]];
        assert PolicyKeys(list[..i + 1]) == PolicyKeys(list[..i]) + {KeyOfPolicy(list[i])};
      }
      assert list[..|list|] == list;
    }

    method CleanupChildSa(child: ChildSa)
      modifies this, child
      ensures View() == CleanUp(old(View()), old(child.View()))
      ensures child.View() == Tables([], [])
    {
      DeleteStates(child.states);
      DeletePolicies(child.policies);
      child.states := [];
      child.policies := [];
    }
  }

  /** Through the manager: what is installed and cleaned up leaves the tables as they were, when its keys
      were unused, and the child with empty lists. */
  method InstallAndCleanUp(manager: XfrmManager, child: ChildSa, initiator: bool, ifid: int)
    requires child.View() == Tables([], [])
    modifies manager, child
    ensures manager.View() == old(manager.View()) <==>
            KeysUnused(old(manager.View()), Installed(initiator, ifid, child.params))
    ensures child.View() == Tables([], [])
  {
    var ok := manager.ApplyXfrmRule(initiator, ifid, child);
    assert child.View() == Installed(initiator, ifid, child.params);
    CleanUpUndoesInstall(old(manager.View()), Installed(initiator, ifid, child.params));
    manager.CleanupChildSa(child);
  }
}
