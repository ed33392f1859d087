/** The binding support function: a store of PCF bindings with address and SUPI indexes
    (5G_Emulator_API/core_network/bsf.py). An optional text field that is absent is the empty
    string: the code only ever asks whether such a field is truthy. */
module Bsf {
  import opened Common

  type BindingId = nat

  datatype Snssai = Snssai(sst: int, sd: string)

  datatype Binding = Binding(
    supi: string, gpsi: string, ipv4Addr: string, ipv6Prefix: string, ipDomain: string, macAddr48: string,
    dnn: string, snssai: Snssai, pcfFqdn: string, pcfIpEndPoints: seq<string>, pcfId: string, pcfSetId: string)

  datatype Patch = Patch(ipv4Addr: string, ipv6Prefix: string, pcfId: string, pcfSetId: string)

  datatype Query = Query(
    ipv4Addr: string, ipv6Prefix: string, macAddr: string, dnn: string, supi: string, gpsi: string,
    snssai: Option<Snssai>, ipDomain: string)

  /** The source's ValueError messages, and the KeyError of an unguarded `del index[address]`. */
  datatype Failure = MissingPcf | MissingAddress | NotFound | IndexEntryMissing

  /** The store, the ids in the order of insertion, and the three indexes. */
  datatype State = State(
    store: map<BindingId, Binding>, order: seq<BindingId>,
    ipv4: map<string, BindingId>, ipv6: map<string, BindingId>, supis: map<string, seq<BindingId>>)

  // ---------- discovery ----------

  predicate MatchesCriteria(b: Binding, dnn: string, snssai: Option<Snssai>) {
    && (dnn == "" || b.dnn == dnn)
    && (snssai.Some? ==> b.snssai.sst == snssai.value.sst && (snssai.value.sd == "" || b.snssai.sd == snssai.value.sd))
  }

  /** Every filter a query may carry, as the scan applies them. */
  predicate Matches(b: Binding, q: Query) {
    && (q.ipv4Addr == "" || b.ipv4Addr == q.ipv4Addr)
    && (q.ipv6Prefix == "" || b.ipv6Prefix == q.ipv6Prefix)
    && (q.macAddr == "" || b.macAddr48 == q.macAddr)
    && (q.supi == "" || b.supi == q.supi)
    && (q.gpsi == "" || b.gpsi == q.gpsi)
    && (q.ipDomain == "" || b.ipDomain == q.ipDomain)
    && MatchesCriteria(b, q.dnn, q.snssai)
  }

  function Scan(store: map<BindingId, Binding>, order: seq<BindingId>, q: Query): seq<Binding>
    requires forall id | id in order :: id in store
  {
    if order == [] then [] else
      var before := Scan(store, order[..|order| - 1], q);
      var last := store[order[|order| - 1]];
      if Matches(last, q) then before + [last] else before
  }

  // ---------- agreement ----------

  /** One attribute of every live binding. */
  function Ipv4Of(store: map<BindingId, Binding>): map<BindingId, string> { map id | id in store :: store[id].ipv4Addr }
  function Ipv6Of(store: map<BindingId, Binding>): map<BindingId, string> {
    map id | id in store :: store[id].ipv6Prefix
  }
  function SupiOf(store: map<BindingId, Binding>): map<BindingId, string> { map id | id in store :: store[id].supi }

  ghost predicate Ordered(store: map<BindingId, Binding>, order: seq<BindingId>) {
    (forall id :: id in order <==> id in store) && NoDuplicates(order)
  }

  /** Every index entry names a live binding that carries the entry's address. */
  ghost predicate IndexSound(index: map<string, BindingId>, bound: map<BindingId, string>) {
    forall a | a in index :: a != "" && index[a] in bound && bound[index[a]] == a
  }

  /** Every bound address has its index entry. */
  ghost predicate IndexComplete(index: map<string, BindingId>, bound: map<BindingId, string>) {
    forall id | id in bound && bound[id] != "" :: bound[id] in index
  }

  /** No two live bindings carry the same address. */
  ghost predicate Distinct(bound: map<BindingId, string>) {
    forall p, q | p in bound && q in bound && bound[p] == bound[q] && bound[p] != "" :: p == q
  }

  /** No live binding other than `id` carries the address. */
  ghost predicate Unbound(bound: map<BindingId, string>, id: BindingId, address: string) {
    forall p | p in bound && bound[p] == address && address != "" :: p == id
  }

  /** The SUPI index lists exactly the live bindings of each SUPI, once each. */
  ghost predicate SupisSound(supis: map<string, seq<BindingId>>, bound: map<BindingId, string>) {
    && (forall id | id in bound && bound[id] != "" :: bound[id] in supis && id in supis[bound[id]])
    && (forall p | p in supis :: p != "" && supis[p] != [] && NoDuplicates(supis[p]))
    && (forall p, id | p in supis && id in supis[p] :: id in bound && bound[id] == p)
  }

  ghost predicate Sound(s: State) {
    && Ordered(s.store, s.order)
    && IndexSound(s.ipv4, Ipv4Of(s.store))
    && IndexSound(s.ipv6, Ipv6Of(s.store))
    && SupisSound(s.supis, SupiOf(s.store))
  }

  /** Every address is bound once, and indexed. */
  ghost predicate Exact(s: State) {
    && IndexComplete(s.ipv4, Ipv4Of(s.store)) && Distinct(Ipv4Of(s.store))
    && IndexComplete(s.ipv6, Ipv6Of(s.store)) && Distinct(Ipv6Of(s.store))
  }

  function Hit(s: State, q: Query): Option<BindingId> {
    if q.ipv4Addr != "" && q.ipv4Addr in s.ipv4 then Some(s.ipv4[q.ipv4Addr])
    else if q.ipv6Prefix != "" && q.ipv6Prefix in s.ipv6 then Some(s.ipv6[q.ipv6Prefix])
    else None
  }

  /** The first index that has an entry answers alone. */
  function Find(s: State, q: Query): seq<Binding>
    requires forall id | id in s.order :: id in s.store
  {
    match Hit(s, q)
    case None => Scan(s.store, s.order, q)
    case Some(id) => if id in s.store && MatchesCriteria(s.store[id], q.dnn, q.snssai) then [s.store[id]] else []
  }

  /** A query by one address, and otherwise only by dnn and slice. */
  predicate ByAddressOnly(q: Query) {
    && (q.ipv4Addr == "" <==> q.ipv6Prefix != "")
    && q.macAddr == "" && q.supi == "" && q.gpsi == "" && q.ipDomain == ""
  }

  lemma {:induction false} ScanNone(store: map<BindingId, Binding>, order: seq<BindingId>, q: Query)
    requires forall id | id in order :: id in store && !Matches(store[id], q)
    ensures Scan(store, order, q) == []
  {
    if order == [] {
    } else {
      ScanNone(store, order[..|order| - 1], q);
    }
  }

  lemma {:induction false} ScanOne(store: map<BindingId, Binding>, order: seq<BindingId>, q: Query, id: BindingId)
    requires NoDuplicates(order)
    requires forall p | p in order :: p in store && (Matches(store[p], q) <==> p == id)
    requires id in order
    ensures Scan(store, order, q) == [store[id]]
  {
    var last := order[|order| - 1];
    var before := order[..|order| - 1];
    if last == id {
      assert id !in before;
      ScanNone(store, before, q);
    } else {
      assert id in before;
      ScanOne(store, before, q, id);
    }
  }

  lemma {:induction false} ScanMember(store: map<BindingId, Binding>, order: seq<BindingId>, q: Query, b: Binding)
    requires forall p | p in order :: p in store
    ensures b in Scan(store, order, q) <==> exists p :: p in order && store[p] == b && Matches(b, q)
  {
    if order == [] {
    } else {
      var last := order[|order| - 1];
      ScanMember(store, order[..|order| - 1], q, b);
      assert forall p :: p in order <==> p in order[..|order| - 1] || p == last;
    }
  }

  lemma {:induction false} ScanTwo(store: map<BindingId, Binding>, order: seq<BindingId>, q: Query, id: BindingId,
      other: BindingId)
    requires forall p | p in order :: p in store
    requires id in order && other in order && id != other
    requires Matches(store[id], q) && Matches(store[other], q)
    ensures |Scan(store, order, q)| >= 2
  {
    var last := order[|order| - 1];
    var before := order[..|order| - 1];
    assert forall p | p in order :: p in before || p == last;
    if last == id {
      ScanMember(store, before, q, store[other]);
    } else if last == other {
      ScanMember(store, before, q, store[id]);
    } else {
      ScanTwo(store, before, q, id, other);
    }
  }

  /** In any sound state: discovery by one address equals the full scan exactly when no live binding
      besides the indexed one passes the query. */
  lemma AddressDiscoveryEqualsScan(s: State, q: Query)
    requires Sound(s) && ByAddressOnly(q)
    ensures Find(s, q) == Scan(s.store, s.order, q) <==>
            (Hit(s, q).Some? ==> forall p | p in s.store && Matches(s.store[p], q) :: p == Hit(s, q).value)
  {
    if Hit(s, q).Some? {
      var id := Hit(s, q).value;
      assert id in s.order;
      if other :| other in s.store && Matches(s.store[other], q) && other != id {
        assert other in s.order;
        if Matches(s.store[id], q) {
          ScanTwo(s.store, s.order, q, id, other);
        } else {
          ScanMember(s.store, s.order, q, s.store[other]);
        }
      } else if Matches(s.store[id], q) {
        ScanOne(s.store, s.order, q, id);
      } else {
        ScanNone(s.store, s.order, q);
      }
    }
  }

  /** With every address bound once, that is always so. */
  lemma AddressDiscoveryIsComplete(s: State, q: Query)
    requires Sound(s) && Exact(s) && ByAddressOnly(q)
    ensures Find(s, q) == Scan(s.store, s.order, q)
  {
    AddressDiscoveryEqualsScan(s, q);
    if Hit(s, q).Some? {
      var id := Hit(s, q).value;
      forall p | p in s.store && Matches(s.store[p], q) ensures p == id {
        if q.ipv4Addr != "" {
          assert Ipv4Of(s.store)[p] == Ipv4Of(s.store)[id];
        } else {
          assert Ipv6Of(s.store)[p] == Ipv6Of(s.store)[id];
        }
      }
    }
  }

  /** With every address bound once, any query equals the scan exactly when the indexed binding, if it
      passes the dnn and slice filters, passes all the others as well: the fast path skips those. */
  lemma DiscoveryEqualsScan(s: State, q: Query)
    requires Sound(s) && Exact(s)
    ensures Find(s, q) == Scan(s.store, s.order, q) <==>
            (Hit(s, q).Some? && MatchesCriteria(s.store[Hit(s, q).value], q.dnn, q.snssai) ==>
             Matches(s.store[Hit(s, q).value], q))
  {
    if Hit(s, q).Some? {
      var id := Hit(s, q).value;
      forall p | p in s.order && p != id ensures !Matches(s.store[p], q) {
        if q.ipv4Addr != "" && q.ipv4Addr in s.ipv4 {
          assert Ipv4Of(s.store)[p] != Ipv4Of(s.store)[id];
        } else {
          assert Ipv6Of(s.store)[p] != Ipv6Of(s.store)[id];
        }
      }
      if Matches(s.store[id], q) {
        ScanOne(s.store, s.order, q, id);
      } else {
        ScanNone(s.store, s.order, q);
      }
    }
  }

  /** Without uniqueness an address query may miss bindings but never returns a wrong one. */
  lemma DiscoveryIsSound(s: State, q: Query)
    requires Sound(s) && ByAddressOnly(q)
    ensures forall b | b in Find(s, q) :: b in Scan(s.store, s.order, q) && Matches(b, q)
  {
    forall b | b in Find(s, q) ensures b in Scan(s.store, s.order, q) && Matches(b, q) {
      ScanMember(s.store, s.order, q, b);
      if Hit(s, q).Some? { assert Hit(s, q).value in s.order; }
    }
  }

  // ---------- create, update, delete ----------

  predicate NoPcf(b: Binding) { b.pcfFqdn == "" && b.pcfIpEndPoints == [] && b.pcfId == "" }

  predicate NoAddress(b: Binding) { b.ipv4Addr == "" && b.ipv6Prefix == "" && b.macAddr48 == "" }

  function Listed(supis: map<string, seq<BindingId>>, supi: string): seq<BindingId> {
    if supi in supis then supis[supi] else []
  }

  function Enter(index: map<string, BindingId>, address: string, id: BindingId): map<string, BindingId> {
    if address == "" then index else index[address := id]
  }

  function Drop(index: map<string, BindingId>, address: string): map<string, BindingId> {
    if address == "" || address !in index then index else index - {address}
  }

  function List(supis: map<string, seq<BindingId>>, supi: string, id: BindingId): map<string, seq<BindingId>> {
    if supi == "" then supis else supis[supi := Listed(supis, supi) + [id]]
  }

  function Unlist(supis: map<string, seq<BindingId>>, supi: string, id: BindingId): map<string, seq<BindingId>> {
    if supi == "" || supi !in supis then supis
    else
      var listed := supis[supi := Without(supis[supi], id)];
      if listed[supi] == [] then listed - {supi} else listed
  }

  function Create(s: State, id: BindingId, b: Binding): (State, Option<Failure>) {
    if NoPcf(b) then (s, Some(MissingPcf))
    else if NoAddress(b) then (s, Some(MissingAddress))
    else (State(s.store[id := b], s.order + [id], Enter(s.ipv4, b.ipv4Addr, id), Enter(s.ipv6, b.ipv6Prefix, id),
                List(s.supis, b.supi, id)), None)
  }

  /** The IPv4 part of an update. The old entry is deleted without asking whether it is there. */
  function UpdateIpv4(s: State, id: BindingId, address: string): (State, Option<Failure>)
    requires id in s.store
  {
    var b := s.store[id];
    if address == "" then (s, None)
    else if b.ipv4Addr != "" && b.ipv4Addr !in s.ipv4 then (s, Some(IndexEntryMissing))
    else (s.(store := s.store[id := b.(ipv4Addr := address)], ipv4 := Enter(Drop(s.ipv4, b.ipv4Addr), address, id)),
          None)
  }

  function UpdateIpv6(s: State, id: BindingId, prefix: string): (State, Option<Failure>)
    requires id in s.store
  {
    var b := s.store[id];
    if prefix == "" then (s, None)
    else if b.ipv6Prefix != "" && b.ipv6Prefix !in s.ipv6 then (s, Some(IndexEntryMissing))
    else (s.(store := s.store[id := b.(ipv6Prefix := prefix)], ipv6 := Enter(Drop(s.ipv6, b.ipv6Prefix), prefix, id)),
          None)
  }

  function UpdatePcfId(s: State, id: BindingId, pcfId: string): State
    requires id in s.store
  {
    if pcfId == "" then s else s.(store := s.store[id := s.store[id].(pcfId := pcfId)])
  }

  function UpdatePcfSetId(s: State, id: BindingId, pcfSetId: string): State
    requires id in s.store
  {
    if pcfSetId == "" then s else s.(store := s.store[id := s.store[id].(pcfSetId := pcfSetId)])
  }

  /** A failure in the IPv6 part leaves the IPv4 part done. */
  function Update(s: State, id: BindingId, patch: Patch): (State, Option<Failure>) {
    if id !in s.store then (s, Some(NotFound)) else
    var (s1, f1) := UpdateIpv4(s, id, patch.ipv4Addr);
    if f1.Some? then (s1, f1) else
    var (s2, f2) := UpdateIpv6(s1, id, patch.ipv6Prefix);
    if f2.Some? then (s2, f2) else (UpdatePcfSetId(UpdatePcfId(s2, id, patch.pcfId), id, patch.pcfSetId), None)
  }

  function Delete(s: State, id: BindingId): State {
    if id !in s.store then s else
    var b := s.store[id];
    State(s.store - {id}, Without(s.order, id), Drop(s.ipv4, b.ipv4Addr), Drop(s.ipv6, b.ipv6Prefix),
          Unlist(s.supis, b.supi, id))
  }

  // ---------- what each operation keeps ----------

  lemma EnterKeeps(index: map<string, BindingId>, bound: map<BindingId, string>, id: BindingId, address: string)
    requires IndexSound(index, bound) && id !in bound
    ensures IndexSound(Enter(index, address, id), bound[id := address])
    ensures IndexComplete(index, bound) ==> IndexComplete(Enter(index, address, id), bound[id := address])
    ensures Distinct(bound) ==> (Distinct(bound[id := address]) <==> Unbound(bound, id, address))
  {
    if Distinct(bound) { OneMoreBound(bound, id, address); }
  }

  lemma OneMoreBound(bound: map<BindingId, string>, id: BindingId, address: string)
    requires Distinct(bound)
    ensures Distinct(bound[id := address]) <==> Unbound(bound, id, address)
  {
    var after := bound[id := address];
    if Distinct(after) {
      forall p | p in bound && bound[p] == address && address != "" ensures p == id {
        assert p in after && id in after;
      }
    }
  }

  lemma MoveKeeps(index: map<string, BindingId>, bound: map<BindingId, string>, id: BindingId, address: string)
    requires IndexSound(index, bound) && id in bound && address != ""
    ensures IndexSound(Enter(Drop(index, bound[id]), address, id), bound[id := address])
    ensures IndexComplete(index, bound) && Distinct(bound) ==>
            IndexComplete(Enter(Drop(index, bound[id]), address, id), bound[id := address])
    ensures Distinct(bound) ==> (Distinct(bound[id := address]) <==> Unbound(bound, id, address))
  {
    if Distinct(bound) { OneMoreBound(bound, id, address); }
  }

  lemma DropKeeps(index: map<string, BindingId>, bound: map<BindingId, string>, id: BindingId)
    requires IndexSound(index, bound) && id in bound
    ensures IndexSound(Drop(index, bound[id]), bound - {id})
    ensures IndexComplete(index, bound) && Distinct(bound) ==> IndexComplete(Drop(index, bound[id]), bound - {id})
    ensures Distinct(bound) ==> Distinct(bound - {id})
  {}

  lemma ListKeeps(supis: map<string, seq<BindingId>>, bound: map<BindingId, string>, id: BindingId, supi: string)
    requires SupisSound(supis, bound) && id !in bound
    ensures SupisSound(List(supis, supi, id), bound[id := supi])
  {
    if supi != "" {
      assert id !in Listed(supis, supi);
    }
  }

  lemma UnlistKeeps(supis: map<string, seq<BindingId>>, bound: map<BindingId, string>, id: BindingId)
    requires SupisSound(supis, bound) && id in bound
    ensures SupisSound(Unlist(supis, bound[id], id), bound - {id})
  {
    var supi := bound[id];
    if supi != "" {
      WithoutMembers(supis[supi], id);
      var rest := Without(supis[supi], id);
      hide Without, NoDuplicates;
      assert forall i | i in rest :: i in supis[supi] && i != id;
    }
  }

  lemma StoreOneIpv4(store: map<BindingId, Binding>, id: BindingId, b: Binding)
    ensures Ipv4Of(store[id := b]) == Ipv4Of(store)[id := b.ipv4Addr]
  {
    assert Ipv4Of(store[id := b]).Keys == store.Keys + {id};
  }

  lemma StoreOneIpv6(store: map<BindingId, Binding>, id: BindingId, b: Binding)
    ensures Ipv6Of(store[id := b]) == Ipv6Of(store)[id := b.ipv6Prefix]
  {
    assert Ipv6Of(store[id := b]).Keys == store.Keys + {id};
  }

  lemma StoreOneSupi(store: map<BindingId, Binding>, id: BindingId, b: Binding)
    ensures SupiOf(store[id := b]) == SupiOf(store)[id := b.supi]
  {
    assert SupiOf(store[id := b]).Keys == store.Keys + {id};
  }

  lemma StoreOne(store: map<BindingId, Binding>, id: BindingId, b: Binding)
    ensures Ipv4Of(store[id := b]) == Ipv4Of(store)[id := b.ipv4Addr]
    ensures Ipv6Of(store[id := b]) == Ipv6Of(store)[id := b.ipv6Prefix]
    ensures SupiOf(store[id := b]) == SupiOf(store)[id := b.supi]
  {
    hide *;
    StoreOneIpv4(store, id, b);
    StoreOneIpv6(store, id, b);
    StoreOneSupi(store, id, b);
  }

  lemma StoreSame(store: map<BindingId, Binding>, id: BindingId, b: Binding)
    requires id in store
    ensures store[id].ipv4Addr == b.ipv4Addr ==> Ipv4Of(store[id := b]) == Ipv4Of(store)
    ensures store[id].ipv6Prefix == b.ipv6Prefix ==> Ipv6Of(store[id := b]) == Ipv6Of(store)
    ensures store[id].supi == b.supi ==> SupiOf(store[id := b]) == SupiOf(store)
  {}

  lemma StoreLess(store: map<BindingId, Binding>, id: BindingId)
    ensures Ipv4Of(store - {id}) == Ipv4Of(store) - {id}
    ensures Ipv6Of(store - {id}) == Ipv6Of(store) - {id}
    ensures SupiOf(store - {id}) == SupiOf(store) - {id}
  {}

  lemma OrderKeeps(store: map<BindingId, Binding>, order: seq<BindingId>, id: BindingId, b: Binding)
    requires Ordered(store, order)
    ensures id in store ==> Ordered(store[id := b], order)
    ensures id !in store ==> Ordered(store[id := b], order + [id])
    ensures Ordered(store - {id}, Without(order, id))
  {
    WithoutMembers(order, id);
    if id !in store { assert id !in order; }
  }

  /** The call binds only addresses that no other live binding carries. */
  ghost predicate Exclusive(s: State, op: Op) {
    match op
    case CreateOp(id, b) => Unbound(Ipv4Of(s.store), id, b.ipv4Addr) && Unbound(Ipv6Of(s.store), id, b.ipv6Prefix)
    case UpdateOp(id, patch) =>
      Unbound(Ipv4Of(s.store), id, patch.ipv4Addr) && Unbound(Ipv6Of(s.store), id, patch.ipv6Prefix)
    case DeleteOp(_) => true
  }

  lemma CreateKeeps(s: State, id: BindingId, b: Binding)
    requires Sound(s) && id !in s.store
    ensures Sound(Create(s, id, b).0)
    ensures Exact(s) ==> (Exact(Create(s, id, b).0) <==> Create(s, id, b).1.Some? || Exclusive(s, CreateOp(id, b)))
  {
    StoreOne(s.store, id, b);
    OrderKeeps(s.store, s.order, id, b);
    EnterKeeps(s.ipv4, Ipv4Of(s.store), id, b.ipv4Addr);
    EnterKeeps(s.ipv6, Ipv6Of(s.store), id, b.ipv6Prefix);
    ListKeeps(s.supis, SupiOf(s.store), id, b.supi);
    hide Ordered, IndexSound, SupisSound, IndexComplete, Distinct, Unbound, Enter, List, Ipv4Of, Ipv6Of, SupiOf;
  }

  lemma UpdateIpv4Keeps(s: State, id: BindingId, address: string)
    requires Sound(s) && id in s.store
    ensures Sound(UpdateIpv4(s, id, address).0)
    ensures id in UpdateIpv4(s, id, address).0.store
    ensures Ipv6Of(UpdateIpv4(s, id, address).0.store) == Ipv6Of(s.store)
  {
    var s' := UpdateIpv4(s, id, address).0;
    if s'.store != s.store {
      var b := s.store[id].(ipv4Addr := address);
      assert address != "" && s' ==
        s.(store := s.store[id := b], ipv4 := Enter(Drop(s.ipv4, s.store[id].ipv4Addr), address, id));
      hide UpdateIpv4;
      StoreOne(s.store, id, b);
      StoreSame(s.store, id, b);
      OrderKeeps(s.store, s.order, id, b);
      MoveKeeps(s.ipv4, Ipv4Of(s.store), id, address);
      assert Ipv4Of(s.store)[id] == s.store[id].ipv4Addr;
      hide Ordered, IndexSound, SupisSound, IndexComplete, Distinct, Unbound, Enter, Drop, Ipv4Of, Ipv6Of, SupiOf;
    }
  }

  lemma UpdateIpv6Keeps(s: State, id: BindingId, prefix: string)
    requires Sound(s) && id in s.store
    ensures Sound(UpdateIpv6(s, id, prefix).0)
    ensures id in UpdateIpv6(s, id, prefix).0.store
    ensures Ipv4Of(UpdateIpv6(s, id, prefix).0.store) == Ipv4Of(s.store)
  {
    var s' := UpdateIpv6(s, id, prefix).0;
    if s'.store != s.store {
      var b := s.store[id].(ipv6Prefix := prefix);
      assert prefix != "" && s' ==
        s.(store := s.store[id := b], ipv6 := Enter(Drop(s.ipv6, s.store[id].ipv6Prefix), prefix, id));
      hide UpdateIpv6;
      StoreOne(s.store, id, b);
      StoreSame(s.store, id, b);
      OrderKeeps(s.store, s.order, id, b);
      MoveKeeps(s.ipv6, Ipv6Of(s.store), id, prefix);
      assert Ipv6Of(s.store)[id] == s.store[id].ipv6Prefix;
      hide Ordered, IndexSound, SupisSound, IndexComplete, Distinct, Unbound, Enter, Drop, Ipv4Of, Ipv6Of, SupiOf;
    }
  }

  lemma UpdateIpv4Exact(s: State, id: BindingId, address: string)
    requires Sound(s) && Exact(s) && id in s.store
    ensures UpdateIpv4(s, id, address).1 == None
    ensures Exact(UpdateIpv4(s, id, address).0) <==> Unbound(Ipv4Of(s.store), id, address)
    ensures Distinct(Ipv4Of(UpdateIpv4(s, id, address).0.store)) <==> Unbound(Ipv4Of(s.store), id, address)
  {
    var b := s.store[id].(ipv4Addr := address);
    StoreOne(s.store, id, b);
    StoreSame(s.store, id, b);
    if address != "" { MoveKeeps(s.ipv4, Ipv4Of(s.store), id, address); }
    assert id in Ipv4Of(s.store) && Ipv4Of(s.store)[id] == s.store[id].ipv4Addr;
    assert s.store[id].ipv4Addr != "" ==> s.store[id].ipv4Addr in s.ipv4;
    assert address == "" ==> Unbound(Ipv4Of(s.store), id, address);
    hide IndexSound, IndexComplete, Distinct, Unbound, Enter, Drop, Ipv4Of, Ipv6Of;
  }

  lemma UpdateIpv6Exact(s: State, id: BindingId, prefix: string)
    requires Sound(s) && Exact(s) && id in s.store
    ensures UpdateIpv6(s, id, prefix).1 == None
    ensures Exact(UpdateIpv6(s, id, prefix).0) <==> Unbound(Ipv6Of(s.store), id, prefix)
  {
    var b := s.store[id].(ipv6Prefix := prefix);
    StoreOne(s.store, id, b);
    StoreSame(s.store, id, b);
    if prefix != "" { MoveKeeps(s.ipv6, Ipv6Of(s.store), id, prefix); }
    assert id in Ipv6Of(s.store) && Ipv6Of(s.store)[id] == s.store[id].ipv6Prefix;
    assert s.store[id].ipv6Prefix != "" ==> s.store[id].ipv6Prefix in s.ipv6;
    assert prefix == "" ==> Unbound(Ipv6Of(s.store), id, prefix);
    hide IndexSound, IndexComplete, Distinct, Unbound, Enter, Drop, Ipv4Of, Ipv6Of;
  }

  lemma UpdateOtherKeeps(s: State, id: BindingId, b: Binding)
    requires Sound(s) && id in s.store
    requires b.ipv4Addr == s.store[id].ipv4Addr && b.ipv6Prefix == s.store[id].ipv6Prefix && b.supi == s.store[id].supi
    ensures Sound(s.(store := s.store[id := b]))
    ensures Exact(s.(store := s.store[id := b])) <==> Exact(s)
    ensures Ipv4Of(s.store[id := b]) == Ipv4Of(s.store)
  {
    StoreSame(s.store, id, b);
    OrderKeeps(s.store, s.order, id, b);
    hide Ordered, IndexSound, SupisSound, IndexComplete, Distinct, Ipv4Of, Ipv6Of, SupiOf;
  }

  lemma UpdatePcfKeeps(s: State, id: BindingId, patch: Patch)
    requires Sound(s) && id in s.store
    ensures var s' := UpdatePcfSetId(UpdatePcfId(s, id, patch.pcfId), id, patch.pcfSetId);
            Sound(s') && (Exact(s') <==> Exact(s)) && Ipv4Of(s'.store) == Ipv4Of(s.store)
  {
    hide Sound, Exact, Ipv4Of;
    if patch.pcfId != "" { UpdateOtherKeeps(s, id, s.store[id].(pcfId := patch.pcfId)); }
    var s1 := UpdatePcfId(s, id, patch.pcfId);
    if patch.pcfSetId != "" { UpdateOtherKeeps(s1, id, s1.store[id].(pcfSetId := patch.pcfSetId)); }
  }

  lemma UpdateIsOneOf(s: State, id: BindingId, patch: Patch)
    requires id in s.store && id in UpdateIpv4(s, id, patch.ipv4Addr).0.store
    requires id in UpdateIpv6(UpdateIpv4(s, id, patch.ipv4Addr).0, id, patch.ipv6Prefix).0.store
    ensures var s1 := UpdateIpv4(s, id, patch.ipv4Addr).0;
            var s2 := UpdateIpv6(s1, id, patch.ipv6Prefix).0;
            Update(s, id, patch).0 == s1 || Update(s, id, patch).0 == s2 ||
            Update(s, id, patch).0 == UpdatePcfSetId(UpdatePcfId(s2, id, patch.pcfId), id, patch.pcfSetId)
  {
    hide UpdateIpv4, UpdateIpv6, UpdatePcfId, UpdatePcfSetId;
  }

  /** An update keeps every index entry true, also when it fails half-way. */
  lemma UpdateKeepsSound(s: State, id: BindingId, patch: Patch)
    requires Sound(s)
    ensures Sound(Update(s, id, patch).0)
  {
    if id in s.store {
      UpdateIpv4Keeps(s, id, patch.ipv4Addr);
      hide *;
      var s1 := UpdateIpv4(s, id, patch.ipv4Addr).0;
      UpdateIpv6Keeps(s1, id, patch.ipv6Prefix);
      var s2 := UpdateIpv6(s1, id, patch.ipv6Prefix).0;
      UpdatePcfKeeps(s2, id, patch);
      UpdateIsOneOf(s, id, patch);
    }
  }

  /** From exact indexes an update cannot fail on a missing entry, and it keeps the indexes exact just when
      it binds only addresses that no other binding carries. */
  lemma UpdateKeepsExact(s: State, id: BindingId, patch: Patch)
    requires Sound(s) && Exact(s) && id in s.store
    ensures Exact(Update(s, id, patch).0) <==>
            Unbound(Ipv4Of(s.store), id, patch.ipv4Addr) && Unbound(Ipv6Of(s.store), id, patch.ipv6Prefix)
    ensures Unbound(Ipv4Of(s.store), id, patch.ipv4Addr) ==> Update(s, id, patch).1 == None
  {
    UpdateIpv4Keeps(s, id, patch.ipv4Addr);
    UpdateIpv4Exact(s, id, patch.ipv4Addr);
    var s1 := UpdateIpv4(s, id, patch.ipv4Addr).0;
    UpdateIpv6Keeps(s1, id, patch.ipv6Prefix);
    if Unbound(Ipv4Of(s.store), id, patch.ipv4Addr) { UpdateIpv6Exact(s1, id, patch.ipv6Prefix); }
    var s2 := UpdateIpv6(s1, id, patch.ipv6Prefix).0;
    UpdatePcfKeeps(s2, id, patch);
    assert forall t :: Exact(t) ==> Distinct(Ipv4Of(t.store));
    hide Sound, Exact, Unbound, Distinct, Ipv4Of, Ipv6Of, UpdateIpv4, UpdateIpv6, UpdatePcfId, UpdatePcfSetId;
  }

  lemma DeleteKeeps(s: State, id: BindingId)
    requires Sound(s)
    ensures Sound(Delete(s, id))
    ensures Exact(s) ==> Exact(Delete(s, id))
  {
    if id in s.store {
      var b := s.store[id];
      StoreLess(s.store, id);
      OrderKeeps(s.store, s.order, id, b);
      DropKeeps(s.ipv4, Ipv4Of(s.store), id);
      DropKeeps(s.ipv6, Ipv6Of(s.store), id);
      UnlistKeeps(s.supis, SupiOf(s.store), id);
      assert Ipv4Of(s.store)[id] == b.ipv4Addr && Ipv6Of(s.store)[id] == b.ipv6Prefix && SupiOf(s.store)[id] == b.supi;
      hide Ordered, IndexSound, SupisSound, IndexComplete, Distinct, Drop, Unlist, Without, Ipv4Of, Ipv6Of, SupiOf;
    }
  }

  // ---------- whole runs ----------

  datatype Op = CreateOp(id: BindingId, binding: Binding) | UpdateOp(id: BindingId, patch: Patch)
    | DeleteOp(id: BindingId)

  function Empty(): State { State(map[], [], map[], map[], map[]) }

  function Step(s: State, op: Op): (State, Option<Failure>) {
    match op
    case CreateOp(id, b) => Create(s, id, b)
    case UpdateOp(id, patch) => Update(s, id, patch)
    case DeleteOp(id) => if id in s.store then (Delete(s, id), None) else (s, Some(NotFound))
  }

  function Run(ops: seq<Op>): State {
    if ops == [] then Empty() else Step(Run(ops[..|ops| - 1]), ops[|ops| - 1]).0
  }

  /** The random id of a new binding is not in use. */
  predicate Fresh(s: State, op: Op) { op.CreateOp? ==> op.id !in s.store }

  ghost predicate FreshIds(ops: seq<Op>) {
    forall i | 0 <= i < |ops| :: Fresh(Run(ops[..i]), ops[i])
  }

  /** The call stores a binding or takes an address: a create that is not refused, an update of a live binding. */
  predicate Effective(s: State, op: Op) {
    match op
    case CreateOp(_, b) => !NoPcf(b) && !NoAddress(b)
    case UpdateOp(id, _) => id in s.store
    case DeleteOp(_) => false
  }

  ghost predicate Harmless(s: State, op: Op) { Effective(s, op) ==> Exclusive(s, op) }

  /** No effective call binds an address while another live binding carries it. */
  ghost predicate BindsOnce(ops: seq<Op>) {
    forall i | 0 <= i < |ops| :: Harmless(Run(ops[..i]), ops[i])
  }

  ghost predicate AlwaysExact(ops: seq<Op>) {
    forall i | 0 <= i <= |ops| :: Exact(Run(ops[..i]))
  }

  lemma StepKeeps(s: State, op: Op)
    requires Sound(s) && Fresh(s, op)
    ensures Sound(Step(s, op).0)
    ensures Exact(s) ==> (Exact(Step(s, op).0) <==> Harmless(s, op))
    ensures Exact(s) && Harmless(s, op) ==> Step(s, op).1 != Some(IndexEntryMissing)
  {
    hide Sound, Exact, Exclusive, Update, Delete;
    match op
    case CreateOp(id, b) => CreateKeeps(s, id, b);
    case UpdateOp(id, patch) => UpdateStepKeeps(s, id, patch);
    case DeleteOp(id) => DeleteKeeps(s, id);
  }

  lemma UpdateStepKeeps(s: State, id: BindingId, patch: Patch)
    requires Sound(s)
    ensures Sound(Update(s, id, patch).0)
    ensures Exact(s) ==> (Exact(Update(s, id, patch).0) <==> id !in s.store || Exclusive(s, UpdateOp(id, patch)))
    ensures Exact(s) && (id in s.store ==> Exclusive(s, UpdateOp(id, patch))) ==>
            Update(s, id, patch).1 != Some(IndexEntryMissing)
  {
    hide Sound, Exact, Unbound, Ipv4Of, Ipv6Of;
    UpdateKeepsSound(s, id, patch);
    if id in s.store && Exact(s) { UpdateKeepsExact(s, id, patch); }
    assert id !in s.store ==> Update(s, id, patch) == (s, Some(NotFound));
    hide Update;
  }

  /** What a run of one call more adds to the two conditions on runs. */
  lemma OneMoreCall(ops: seq<Op>, op: Op)
    ensures FreshIds(ops + [op]) <==> FreshIds(ops) && Fresh(Run(ops), op)
    ensures BindsOnce(ops + [op]) <==> BindsOnce(ops) && Harmless(Run(ops), op)
    ensures AlwaysExact(ops + [op]) <==> AlwaysExact(ops) && Exact(Run(ops + [op]))
  {
    hide Run, Exact, Fresh, Harmless;
    var all := ops + [op];
    assert all[..|ops|] == ops && all[..|all|] == all;
    forall i | 0 <= i <= |ops| ensures all[..i] == ops[..i] {}
    forall i | 0 <= i < |ops| ensures all[i] == ops[i] {}
  }

  lemma {:induction false} RunKeeps(ops: seq<Op>)
    requires FreshIds(ops)
    ensures Sound(Run(ops))
    ensures BindsOnce(ops) ==> Exact(Run(ops))
    ensures AlwaysExact(ops) <==> BindsOnce(ops)
  {
    if ops == [] {
    } else {
      var before, last := ops[..|ops| - 1], ops[|ops| - 1];
      assert ops == before + [last];
      OneMoreCall(before, last);
      RunKeeps(before);
      StepKeeps(Run(before), last);
      assert Run(ops) == Step(Run(before), last).0;
      hide *;
    }
  }

  /** The addresses are bound once and indexed after every call of a run if and only if no effective call
      of it binds an address that another live binding carries at that point. */
  lemma IndexesStayExact(ops: seq<Op>)
    requires FreshIds(ops)
    ensures (forall i | 0 <= i <= |ops| :: Exact(Run(ops[..i]))) <==> BindsOnce(ops)
  {
    RunKeeps(ops);
    hide Run, Exact, BindsOnce, FreshIds;
  }

  /** On every run that binds each address at most once, discovery by address is the full scan and the
      next such call never meets a missing index entry; on any other run it still never returns a wrong
      binding. */
  lemma DiscoveryOnEveryRun(ops: seq<Op>, q: Query, next: Op)
    requires FreshIds(ops) && ByAddressOnly(q)
    ensures Sound(Run(ops))
    ensures forall b | b in Find(Run(ops), q) :: Matches(b, q) && b in Scan(Run(ops).store, Run(ops).order, q)
    ensures BindsOnce(ops) ==> Find(Run(ops), q) == Scan(Run(ops).store, Run(ops).order, q)
    ensures BindsOnce(ops + [next]) && Fresh(Run(ops), next) ==>
            Step(Run(ops), next).1 != Some(IndexEntryMissing)
  {
    RunKeeps(ops);
    DiscoveryIsSound(Run(ops), q);
    if BindsOnce(ops) { AddressDiscoveryIsComplete(Run(ops), q); }
    if BindsOnce(ops + [next]) && Fresh(Run(ops), next) {
      OneMoreCall(ops, next);
      StepKeeps(Run(ops), next);
    }
    hide *;
  }

  lemma RunOneMore(ops: seq<Op>, op: Op)
    ensures Run(ops + [op]) == Step(Run(ops), op).0
  {
    assert (ops + [op])[..|ops|] == ops;
  }

  /** The store and the index after two bindings of one address, and nothing else to index. */
  lemma TwoBindings(b: Binding)
    requires b.pcfId != "" && b.ipv4Addr != "" && b.ipv6Prefix == "" && b.supi == ""
    ensures Run([CreateOp(1, b), CreateOp(2, b)]) ==
            State(map[1 := b, 2 := b], [1, 2], map[b.ipv4Addr := 2], map[], map[])
  {
    var one, two := CreateOp(1, b), CreateOp(2, b);
    RunOneMore([], one);
    RunOneMore([one], two);
    assert Run([]) == Empty();
    hide Run;
    assert [] + [one] == [one] && [one] + [two] == [one, two];
    assert Step(Empty(), one).0 == State(map[1 := b], [1], map[b.ipv4Addr := 1], map[], map[]);
    assert map[1 := b][2 := b] == map[1 := b, 2 := b] && map[b.ipv4Addr := 1][b.ipv4Addr := 2] == map[b.ipv4Addr := 2];
  }

  /** Two bindings of one address: discovery sees only the later one; deleting that one takes the index
      entry of the other with it, and the next address update of the other fails. */
  lemma SharedAddressBreaksTheIndex(b: Binding, q: Query, patch: Patch)
    requires b.pcfId != "" && b.ipv4Addr != "" && b.ipv6Prefix == "" && b.supi == ""
    requires ByAddressOnly(q) && q.ipv4Addr == b.ipv4Addr && MatchesCriteria(b, q.dnn, q.snssai) && patch.ipv4Addr != ""
    ensures var twice := State(map[1 := b, 2 := b], [1, 2], map[b.ipv4Addr := 2], map[], map[]);
            Run([CreateOp(1, b), CreateOp(2, b)]) == twice &&
            Find(twice, q) == [b] && |Scan(twice.store, twice.order, q)| >= 2
    ensures var once := Run([CreateOp(1, b), CreateOp(2, b)] + [DeleteOp(2)]);
            1 in once.store && once.ipv4 == map[] && Update(once, 1, patch) == (once, Some(IndexEntryMissing))
  {
    TwoBindings(b);
    RunOneMore([CreateOp(1, b), CreateOp(2, b)], DeleteOp(2));
    hide Run;
    var s2 := Run([CreateOp(1, b), CreateOp(2, b)]);
    ScanTwo(s2.store, s2.order, q, 1, 2);
    hide Scan, Matches;
    assert Delete(s2, 2).ipv4 == map[];
  }

  // ---------- what the requests answer ----------

  /** The query's network name or slice rules the binding out. */
  predicate RuledOut(b: Binding, q: Query) {
    || (q.dnn != "" && q.dnn != b.dnn)
    || (q.snssai.Some? && (q.snssai.value.sst != b.snssai.sst ||
                           (q.snssai.value.sd != "" && q.snssai.value.sd != b.snssai.sd)))
  }

  /** Something else that the query names is not the binding's. */
  predicate Differs(b: Binding, q: Query) {
    || (q.ipv4Addr != "" && q.ipv4Addr != b.ipv4Addr) || (q.ipv6Prefix != "" && q.ipv6Prefix != b.ipv6Prefix)
    || (q.macAddr != "" && q.macAddr != b.macAddr48) || (q.ipDomain != "" && q.ipDomain != b.ipDomain)
    || (q.supi != "" && q.supi != b.supi) || (q.gpsi != "" && q.gpsi != b.gpsi)
  }

  ghost predicate Ascending(places: seq<nat>) { forall i, j | 0 <= i < j < |places| :: places[i] < places[j] }

  /** The scan returns, in the order of creation and once each, exactly the bindings that nothing in the query
      speaks against. */
  lemma {:induction false} ScanReturnsExactly(store: map<BindingId, Binding>, order: seq<BindingId>, q: Query)
    returns (places: seq<nat>)
    requires forall p | p in order :: p in store
    ensures Ascending(places) && |places| == |Scan(store, order, q)|
    ensures forall k | 0 <= k < |places| :: places[k] < |order| && Scan(store, order, q)[k] == store[order[places[k]]]
    ensures forall i | 0 <= i < |order| ::
              i in places <==> !RuledOut(store[order[i]], q) && !Differs(store[order[i]], q)
  {
    if order == [] {
      places := [];
    } else {
      var n := |order| - 1;
      var before := ScanReturnsExactly(store, order[..n], q);
      assert Matches(store[order[n]], q) <==> !RuledOut(store[order[n]], q) && !Differs(store[order[n]], q);
      hide Matches, RuledOut, Differs;
      assert forall i | 0 <= i < n :: order[..n][i] == order[i];
      if Matches(store[order[n]], q) {
        places := before + [n];
        assert forall i | 0 <= i < n :: i in places <==> i in before;
        assert places[|before|] == n;
      } else {
        places := before;
        assert n !in before;
      }
    }
  }

  /** A query by an address that is indexed, IPv4 before IPv6, is answered by the binding indexed there unless the
      network name or the slice rules it out, and every other query by the scan. */
  lemma FindAnswersExactly(s: State, q: Query)
    requires Sound(s)
    ensures q.ipv4Addr != "" && q.ipv4Addr in s.ipv4 ==>
            s.ipv4[q.ipv4Addr] in s.store &&
            Find(s, q) == if RuledOut(s.store[s.ipv4[q.ipv4Addr]], q) then [] else [s.store[s.ipv4[q.ipv4Addr]]]
    ensures !(q.ipv4Addr != "" && q.ipv4Addr in s.ipv4) && q.ipv6Prefix != "" && q.ipv6Prefix in s.ipv6 ==>
            s.ipv6[q.ipv6Prefix] in s.store &&
            Find(s, q) == if RuledOut(s.store[s.ipv6[q.ipv6Prefix]], q) then [] else [s.store[s.ipv6[q.ipv6Prefix]]]
    ensures !(q.ipv4Addr != "" && q.ipv4Addr in s.ipv4) && !(q.ipv6Prefix != "" && q.ipv6Prefix in s.ipv6) ==>
            Find(s, q) == Scan(s.store, s.order, q)
  {
    hide Scan, Matches, SupisSound;
    forall b: Binding ensures RuledOut(b, q) <==> !MatchesCriteria(b, q.dnn, q.snssai) {}
    hide RuledOut, MatchesCriteria;
  }

  /** The index with the address sent to the id, if there is an address. */
  ghost predicate Sends(before: map<string, BindingId>, after: map<string, BindingId>, address: string, id: BindingId) {
    && after.Keys == before.Keys + (if address != "" then {address} else {})
    && forall a | a in after :: after[a] == if a == address then id else before[a]
  }

  /** The index without the address, and with another sent to the id. */
  ghost predicate Moves(before: map<string, BindingId>, after: map<string, BindingId>, own: string, address: string,
      id: BindingId)
  {
    if address == "" then after == before else Sends(before - {own}, after, address, id)
  }

  lemma EnterSends(index: map<string, BindingId>, address: string, id: BindingId)
    requires "" !in index
    ensures Sends(index, Enter(index, address, id), address, id)
  {}

  lemma EnterMoves(index: map<string, BindingId>, own: string, address: string, id: BindingId)
    requires "" !in index && address != ""
    ensures Moves(index, Enter(Drop(index, own), address, id), own, address, id)
  {
    assert Drop(index, own) == index - {own};
  }

  lemma NoEmptyKeys(s: State)
    requires Sound(s)
    ensures "" !in s.ipv4 && "" !in s.ipv6 && "" !in s.supis
  {}

  /** A create is refused exactly when the binding names no PCF, or a PCF and no address. Otherwise it comes last,
      its addresses are sent to it, and its id comes last under its SUPI; all else stays. */
  lemma CreateAnswersExactly(s: State, id: BindingId, b: Binding)
    requires Sound(s)
    ensures var (s', failure) := Create(s, id, b);
            && (failure == Some(MissingPcf) <==> b.pcfFqdn == b.pcfId == "" && b.pcfIpEndPoints == [])
            && (failure == Some(MissingAddress) <==>
                  failure != Some(MissingPcf) && b.ipv4Addr == b.ipv6Prefix == b.macAddr48 == "")
            && (failure.Some? ==> s' == s && failure.value in {MissingPcf, MissingAddress})
            && (failure.None? ==>
                  && s'.store == s.store[id := b] && s'.order == s.order + [id]
                  && Sends(s.ipv4, s'.ipv4, b.ipv4Addr, id) && Sends(s.ipv6, s'.ipv6, b.ipv6Prefix, id)
                  && (b.supi == "" ==> s'.supis == s.supis)
                  && (b.supi != "" ==>
                        s'.supis == s.supis[b.supi := (if b.supi in s.supis then s.supis[b.supi] else []) + [id]]))
  {
    hide Sound, Enter, Sends;
    NoEmptyKeys(s);
    EnterSends(s.ipv4, b.ipv4Addr, id);
    EnterSends(s.ipv6, b.ipv6Prefix, id);
  }

  /** An update fails for an unknown binding, or exactly when an address that it replaces has lost its entry. When
      it succeeds the binding has the patch's fields that are given and its own otherwise, its replaced addresses
      have left the indexes for the new ones, and all else stays. */
  lemma UpdateAnswersExactly(s: State, id: BindingId, patch: Patch)
    requires Sound(s)
    ensures var (s', failure) := Update(s, id, patch);
            && (failure == Some(NotFound) <==> id !in s.store)
            && (failure == Some(IndexEntryMissing) <==>
                  id in s.store &&
                  ((patch.ipv4Addr != "" && s.store[id].ipv4Addr != "" && s.store[id].ipv4Addr !in s.ipv4) ||
                   (patch.ipv6Prefix != "" && s.store[id].ipv6Prefix != "" && s.store[id].ipv6Prefix !in s.ipv6)))
            && (failure.None? ==> id in s.store && Updated(s, s', id, patch))
  {
    if id in s.store { UpdateIsUpdated(s, id, patch); }
  }

  function Given(value: string, own: string): string { if value != "" then value else own }

  ghost predicate Updated(s: State, s': State, id: BindingId, patch: Patch)
    requires id in s.store
  {
    var b := s.store[id];
    && s'.order == s.order && s'.supis == s.supis
    && s'.store == s.store[id := b.(
         ipv4Addr := Given(patch.ipv4Addr, b.ipv4Addr), ipv6Prefix := Given(patch.ipv6Prefix, b.ipv6Prefix),
         pcfId := Given(patch.pcfId, b.pcfId), pcfSetId := Given(patch.pcfSetId, b.pcfSetId))]
    && Moves(s.ipv4, s'.ipv4, b.ipv4Addr, patch.ipv4Addr, id)
    && Moves(s.ipv6, s'.ipv6, b.ipv6Prefix, patch.ipv6Prefix, id)
  }

  /** The same, from what its steps do to the binding. */
  lemma UpdateIsUpdated(s: State, id: BindingId, patch: Patch)
    requires Sound(s) && id in s.store
    ensures var (s', failure) := Update(s, id, patch);
            && (failure == Some(IndexEntryMissing) <==>
                  ((patch.ipv4Addr != "" && s.store[id].ipv4Addr != "" && s.store[id].ipv4Addr !in s.ipv4) ||
                   (patch.ipv6Prefix != "" && s.store[id].ipv6Prefix != "" && s.store[id].ipv6Prefix !in s.ipv6)))
            && failure != Some(NotFound)
            && (failure.None? ==> Updated(s, s', id, patch))
  {
    NoEmptyKeys(s);
    hide Sound, Updated, Moves;
    AddressesMove(s, id, patch);
    var s1 := UpdateIpv4(s, id, patch.ipv4Addr).0;
    var (s2, failure) := UpdateIpv6(s1, id, patch.ipv6Prefix);
    if failure.None? { PcfMoves(s2, id, patch); }
    hide UpdateIpv4, UpdateIpv6, UpdatePcfId, UpdatePcfSetId;
    if Update(s, id, patch).1.None? { UpdatedInParts(s, s2, Update(s, id, patch).0, id, patch); }
  }

  lemma AddressesMove(s: State, id: BindingId, patch: Patch)
    requires id in s.store && "" !in s.ipv4 && "" !in s.ipv6
    ensures var b, (s1, failure1) := s.store[id], UpdateIpv4(s, id, patch.ipv4Addr);
            && id in s1.store
            && (failure1 == Some(IndexEntryMissing) <==>
                  patch.ipv4Addr != "" && b.ipv4Addr != "" && b.ipv4Addr !in s.ipv4)
            && (failure1.None? || failure1 == Some(IndexEntryMissing))
            && s1.ipv6 == s.ipv6 && s1.store[id].ipv6Prefix == b.ipv6Prefix
            && var (s2, failure2) := UpdateIpv6(s1, id, patch.ipv6Prefix);
               && id in s2.store
               && (failure2 == Some(IndexEntryMissing) <==>
                     patch.ipv6Prefix != "" && b.ipv6Prefix != "" && b.ipv6Prefix !in s.ipv6)
               && (failure2.None? || failure2 == Some(IndexEntryMissing))
               && (failure1.None? && failure2.None? ==> AddressesMoved(s, s2, id, patch))
  {
    var b := s.store[id];
    if patch.ipv4Addr != "" { EnterMoves(s.ipv4, b.ipv4Addr, patch.ipv4Addr, id); }
    if patch.ipv6Prefix != "" { EnterMoves(s.ipv6, b.ipv6Prefix, patch.ipv6Prefix, id); }
    var b1 := b.(ipv4Addr := Given(patch.ipv4Addr, b.ipv4Addr));
    var b2 := b1.(ipv6Prefix := Given(patch.ipv6Prefix, b.ipv6Prefix));
    assert s.store[id := b1][id := b2] == s.store[id := b2] && s.store[id := b] == s.store;
    hide Enter, Drop, Sends;
  }

  ghost predicate AddressesMoved(s: State, s': State, id: BindingId, patch: Patch)
    requires id in s.store
  {
    var b := s.store[id];
    && s'.order == s.order && s'.supis == s.supis
    && s'.store == s.store[id := b.(
         ipv4Addr := Given(patch.ipv4Addr, b.ipv4Addr), ipv6Prefix := Given(patch.ipv6Prefix, b.ipv6Prefix))]
    && Moves(s.ipv4, s'.ipv4, b.ipv4Addr, patch.ipv4Addr, id)
    && Moves(s.ipv6, s'.ipv6, b.ipv6Prefix, patch.ipv6Prefix, id)
  }

  lemma PcfMoves(s: State, id: BindingId, patch: Patch)
    requires id in s.store
    ensures var b := s.store[id];
            UpdatePcfSetId(UpdatePcfId(s, id, patch.pcfId), id, patch.pcfSetId) ==
            s.(store := s.store[id := b.(pcfId := Given(patch.pcfId, b.pcfId),
                                         pcfSetId := Given(patch.pcfSetId, b.pcfSetId))])
  {
    var b := s.store[id];
    var b1 := b.(pcfId := Given(patch.pcfId, b.pcfId));
    var b2 := b1.(pcfSetId := Given(patch.pcfSetId, b.pcfSetId));
    assert s.store[id := b1][id := b2] == s.store[id := b2] && s.store[id := b] == s.store;
  }

  lemma UpdatedInParts(s: State, s2: State, s3: State, id: BindingId, patch: Patch)
    requires id in s.store && id in s2.store && AddressesMoved(s, s2, id, patch)
    requires var b := s2.store[id];
             s3 == s2.(store := s2.store[id := b.(pcfId := Given(patch.pcfId, b.pcfId),
                                                  pcfSetId := Given(patch.pcfSetId, b.pcfSetId))])
    ensures Updated(s, s3, id, patch)
  {
    hide Moves;
    assert s3.store == s.store[id := s3.store[id]];
  }

  lemma SoundListsAreDistinct(s: State)
    requires Sound(s)
    ensures NoDuplicates(s.order) && forall supi | supi in s.supis :: NoDuplicates(s.supis[supi])
  {
    hide NoDuplicates, IndexSound;
  }

  lemma DropTakes(index: map<string, BindingId>, address: string)
    requires "" !in index
    ensures Drop(index, address) == index - {address}
  {}

  lemma UnlistTakes(supis: map<string, seq<BindingId>>, supi: string, id: BindingId)
    requires "" !in supis && (supi in supis ==> NoDuplicates(supis[supi]))
    ensures Unlist(supis, supi, id) - {supi} == supis - {supi}
    ensures forall p :: supi in Unlist(supis, supi, id) && p in Unlist(supis, supi, id)[supi] <==>
                        supi in supis && p in supis[supi] && p != id
  {
    if supi in supis { WithoutMembers(supis[supi], id); }
    hide Without, NoDuplicates;
  }

  /** A delete takes the binding, its place, the index entries under its addresses and its id under its SUPI. */
  lemma DeleteTakesExactly(s: State, id: BindingId)
    requires Sound(s) && id in s.store
    ensures var s', b := Delete(s, id), s.store[id];
            && s'.store == s.store - {id} && (forall p :: p in s'.order <==> p in s.order && p != id)
            && s'.ipv4 == s.ipv4 - {b.ipv4Addr} && s'.ipv6 == s.ipv6 - {b.ipv6Prefix}
            && s'.supis - {b.supi} == s.supis - {b.supi}
            && (forall p :: b.supi in s'.supis && p in s'.supis[b.supi] <==>
                  b.supi in s.supis && p in s.supis[b.supi] && p != id)
  {
    hide Sound, NoDuplicates, Without, Unlist, Drop;
    NoEmptyKeys(s);
    SoundListsAreDistinct(s);
    var b := s.store[id];
    WithoutMembers(s.order, id);
    UnlistTakes(s.supis, b.supi, id);
    DropTakes(s.ipv4, b.ipv4Addr);
    DropTakes(s.ipv6, b.ipv6Prefix);
  }

  // ---------- the service ----------

  class BSF {
    var store: map<BindingId, Binding>
    var order: seq<BindingId>
    var ipv4Index: map<string, BindingId>
    var ipv6Index: map<string, BindingId>
    var supiIndex: map<string, seq<BindingId>>

    function View(): State reads this { State(store, order, ipv4Index, ipv6Index, supiIndex) }

    ghost predicate Valid() reads this { Sound(View()) }

    constructor ()
      ensures View() == Empty() && Valid()
    {
      store, order, ipv4Index, ipv6Index, supiIndex := map[], [], map[], map[], map[];
    }

    /** `newId` is the random id. */
    method CreateBinding(newId: BindingId, b: Binding) returns (failure: Option<Failure>)
      requires Valid() && newId !in store
      modifies this
      ensures Valid()
      ensures (View(), failure) == Create(old(View()), newId, b)
    {
      assert Sound(Create(View(), newId, b).0) by { CreateKeeps(View(), newId, b); }
      hide Sound, Enter, List, Listed, NoPcf, NoAddress;
      if NoPcf(b) { return Some(MissingPcf); }
      if NoAddress(b) { return Some(MissingAddress); }
      store, order := store[newId := b], order + [newId];
      EnterIndexes(newId, b);
      failure := None;
    }

    method EnterIndexes(id: BindingId, b: Binding)
      modifies this
      ensures store == old(store) && order == old(order)
      ensures ipv4Index == Enter(old(ipv4Index), b.ipv4Addr, id)
      ensures ipv6Index == Enter(old(ipv6Index), b.ipv6Prefix, id)
      ensures supiIndex == List(old(supiIndex), b.supi, id)
    {
      if b.ipv4Addr != "" { ipv4Index := ipv4Index[b.ipv4Addr := id]; }
      if b.ipv6Prefix != "" { ipv6Index := ipv6Index[b.ipv6Prefix := id]; }
      if b.supi != "" {
        supiIndex := supiIndex[b.supi := Listed(supiIndex, b.supi) + [id]];
      }
    }

    method FindBindings(q: Query) returns (results: seq<Binding>)
      requires Valid()
      ensures results == Find(View(), q)
    {
      results := [];
      if q.ipv4Addr != "" && q.ipv4Addr in ipv4Index {
        var id := ipv4Index[q.ipv4Addr];
        if id in store {
          if MatchesCriteria(store[id], q.dnn, q.snssai) { results := results + [store[id]]; }
        }
        return;
      }
      if q.ipv6Prefix != "" && q.ipv6Prefix in ipv6Index {
        var id := ipv6Index[q.ipv6Prefix];
        if id in store {
          if MatchesCriteria(store[id], q.dnn, q.snssai) { results := results + [store[id]]; }
        }
        return;
      }
      var i := 0;
      while i < |order|
        invariant 0 <= i <= |order|
        invariant results == Scan(store, order[..i], q)
      {
        var b := store[order[i]];
        assert order[..i + 1][..i] == order[..i];
        i := i + 1;
        if q.ipv4Addr != "" && b.ipv4Addr != q.ipv4Addr { continue; }
        if q.ipv6Prefix != "" && b.ipv6Prefix != q.ipv6Prefix { continue; }
        if q.macAddr != "" && b.macAddr48 != q.macAddr { continue; }
        if q.supi != "" && b.supi != q.supi { continue; }
        if q.gpsi != "" && b.gpsi != q.gpsi { continue; }
        if q.ipDomain != "" && b.ipDomain != q.ipDomain { continue; }
        if !MatchesCriteria(b, q.dnn, q.snssai) { continue; }
        results := results + [b];
      }
      assert order[..i] == order;
    }

    method MoveIpv4(id: BindingId, address: string) returns (failure: Option<Failure>)
      requires id in store
      modifies this
      ensures (View(), failure) == UpdateIpv4(old(View()), id, address)
      ensures id in store
    {
      if address != "" {
        var b := store[id];
        if b.ipv4Addr != "" {
          if b.ipv4Addr !in ipv4Index { return Some(IndexEntryMissing); }
          ipv4Index := ipv4Index - {b.ipv4Addr};
        }
        store := store[id := b.(ipv4Addr := address)];
        ipv4Index := ipv4Index[address := id];
      }
      failure := None;
    }

    method MoveIpv6(id: BindingId, prefix: string) returns (failure: Option<Failure>)
      requires id in store
      modifies this
      ensures (View(), failure) == UpdateIpv6(old(View()), id, prefix)
      ensures id in store
    {
      if prefix != "" {
        var b := store[id];
        if b.ipv6Prefix != "" {
          if b.ipv6Prefix !in ipv6Index { return Some(IndexEntryMissing); }
          ipv6Index := ipv6Index - {b.ipv6Prefix};
        }
        store := store[id := b.(ipv6Prefix := prefix)];
        ipv6Index := ipv6Index[prefix := id];
      }
      failure := None;
    }

    method UpdateBinding(id: BindingId, patch: Patch) returns (failure: Option<Failure>)
      requires Valid()
      modifies this
      ensures Valid()
      ensures (View(), failure) == Update(old(View()), id, patch)
    {
      UpdateKeepsSound(View(), id, patch);
      hide Sound, UpdateIpv4, UpdateIpv6;
      if id !in store { return Some(NotFound); }
      failure := MoveIpv4(id, patch.ipv4Addr);
      if failure.Some? { return; }
      failure := MoveIpv6(id, patch.ipv6Prefix);
      if failure.Some? { return; }
      if patch.pcfId != "" { store := store[id := store[id].(pcfId := patch.pcfId)]; }
      if patch.pcfSetId != "" { store := store[id := store[id].(pcfSetId := patch.pcfSetId)]; }
    }

    method DeleteBinding(id: BindingId) returns (deleted: bool)
      requires Valid()
      modifies this
      ensures Valid()
      ensures View() == Delete(old(View()), id) && deleted == (id in old(store))
    {
      DeleteKeeps(View(), id);
      hide Sound, Drop, Unlist, Without;
      if id !in store { return false; }
      LeaveIndexes(id, store[id]);
      store, order := store - {id}, Without(order, id);
      deleted := true;
    }

    method LeaveIndexes(id: BindingId, b: Binding)
      modifies this
      ensures store == old(store) && order == old(order)
      ensures ipv4Index == Drop(old(ipv4Index), b.ipv4Addr)
      ensures ipv6Index == Drop(old(ipv6Index), b.ipv6Prefix)
      ensures supiIndex == Unlist(old(supiIndex), b.supi, id)
    {
      if b.ipv4Addr != "" && b.ipv4Addr in ipv4Index { ipv4Index := ipv4Index - {b.ipv4Addr}; }
      if b.ipv6Prefix != "" && b.ipv6Prefix in ipv6Index { ipv6Index := ipv6Index - {b.ipv6Prefix}; }
      if b.supi != "" && b.supi in supiIndex {
        supiIndex := supiIndex[b.supi := Without(supiIndex[b.supi], id)];
        if supiIndex[b.supi] == [] { supiIndex := supiIndex - {b.supi}; }
      }
    }
  }
}
