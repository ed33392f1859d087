/** Discovery in the network repository (5G_Emulator_API/core_network/nrf.py). An optional list, or filter,
    that is absent is empty: the code only ever asks whether it is truthy. */
module Nrf {
  import opened Common

  datatype Snssai = Snssai(sst: int, sd: Option<string>)
  datatype Plmn = Plmn(mcc: string, mnc: string)
  datatype Status = Registered | Suspended | Undiscoverable

  datatype Profile = Profile(
    id: nat, nfType: string, status: Status, allowedNfTypes: seq<string>, services: seq<string>,
    snssais: seq<Snssai>, plmns: seq<Plmn>, priority: Option<int>, capacity: Option<int>)

  datatype Query = Query(
    targetType: string, requesterType: string, services: seq<string>, snssais: seq<Snssai>, plmns: seq<Plmn>,
    dnn: string, limit: Option<int>)

  // ---------- the filters ----------

  /** A filter by a list applies only when both lists have something in them, and asks for one in common.
      The data network name is never looked at. */
  ghost predicate Passes(q: Query, p: Profile) {
    && (q.targetType != "" ==> p.nfType == q.targetType)
    && (q.requesterType != "" && p.allowedNfTypes != [] ==> q.requesterType in p.allowedNfTypes)
    && (q.services != [] && p.services != [] ==> exists s :: s in p.services && s in q.services)
    && (q.snssais != [] && p.snssais != [] ==> exists s :: s in q.snssais && s in p.snssais)
    && (q.plmns != [] && p.plmns != [] ==> exists s :: s in q.plmns && s in p.plmns)
    && p.status == Registered
  }

  ghost function Matches(q: Query, profiles: seq<Profile>): seq<Profile> {
    if profiles == [] then []
    else
      var n := |profiles| - 1;
      Matches(q, profiles[..n]) + if Passes(q, profiles[n]) then [profiles[n]] else []
  }

  // ---------- the ranking ----------

  datatype Key = Key(priority: int, spare: int)

  function KeyOf(p: Profile): Key {
    Key(if p.priority.Some? then p.priority.value else 0, if p.capacity.Some? then -p.capacity.value else 0)
  }

  predicate Before(a: Key, b: Key) { a.priority < b.priority || (a.priority == b.priority && a.spare < b.spare) }

  lemma BeforeIsStrict(a: Key, b: Key)
    ensures Before(a, b) ==> a != b
  {}

  ghost predicate Ranked(list: seq<Profile>) {
    forall i, j | 0 <= i < j < |list| :: !Before(KeyOf(list[j]), KeyOf(list[i]))
  }

  /** The profiles of one rank, in order. */
  function WithKey(list: seq<Profile>, key: Key): seq<Profile> {
    if list == [] then []
    else
      var n := |list| - 1;
      WithKey(list[..n], key) + if KeyOf(list[n]) == key then [list[n]] else []
  }

  /** Put a profile behind all that rank no lower. */
  function Insert(list: seq<Profile>, p: Profile): seq<Profile> {
    if list == [] || !Before(KeyOf(p), KeyOf(list[|list| - 1])) then list + [p]
    else Insert(list[..|list| - 1], p) + [list[|list| - 1]]
  }

  function Sort(list: seq<Profile>): seq<Profile> {
    if list == [] then [] else Insert(Sort(list[..|list| - 1]), list[|list| - 1])
  }

  lemma NoneRanksAfterLast(list: seq<Profile>, p: Profile)
    requires list != [] && Ranked(list) && !Before(KeyOf(p), KeyOf(list[|list| - 1]))
    ensures forall i | 0 <= i < |list| :: !Before(KeyOf(p), KeyOf(list[i]))
  {
    hide KeyOf;
  }

  lemma RankedAppend(list: seq<Profile>, p: Profile)
    requires Ranked(list) && forall i | 0 <= i < |list| :: !Before(KeyOf(p), KeyOf(list[i]))
    ensures Ranked(list + [p])
  {
    hide Before, KeyOf;
  }

  lemma {:induction false} InsertMembers(list: seq<Profile>, p: Profile)
    ensures |Insert(list, p)| == |list| + 1
    ensures forall r :: r in Insert(list, p) <==> r in list || r == p
  {
    hide Before, KeyOf;
    if list == [] {
    } else {
      var n := |list| - 1;
      InsertMembers(list[..n], p);
      assert list == list[..n] + [list[n]];
    }
  }

  lemma {:induction false} InsertIsRanked(list: seq<Profile>, p: Profile)
    requires Ranked(list)
    ensures Ranked(Insert(list, p))
  {
    if list == [] {
    } else if Before(KeyOf(p), KeyOf(list[|list| - 1])) {
      var n := |list| - 1;
      var rest, last := list[..n], list[n];
      assert Insert(list, p) == Insert(rest, p) + [last];
      InsertIsRanked(rest, p);
      InsertMembers(rest, p);
      assert !Before(KeyOf(last), KeyOf(p));
      hide Insert, KeyOf, Before;
      var inserted := Insert(rest, p);
      forall i | 0 <= i < |inserted| ensures !Before(KeyOf(last), KeyOf(inserted[i])) {
        assert inserted[i] in inserted;
        if inserted[i] != p {
          var k :| 0 <= k < n && rest[k] == inserted[i];
          assert list[k] == inserted[i];
        }
      }
      RankedAppend(inserted, last);
    } else {
      NoneRanksAfterLast(list, p);
      RankedAppend(list, p);
    }
  }

  lemma WithKeyAppend(list: seq<Profile>, p: Profile, key: Key)
    ensures WithKey(list + [p], key) == WithKey(list, key) + if KeyOf(p) == key then [p] else []
  {
    assert (list + [p])[..|list|] == list;
  }

  /** A rank below none of the list's comes last. */
  lemma {:induction false} WithKeyNone(list: seq<Profile>, key: Key)
    requires forall i | 0 <= i < |list| :: KeyOf(list[i]) != key
    ensures WithKey(list, key) == []
  {
    if list == [] {
    } else {
      WithKeyNone(list[..|list| - 1], key);
    }
  }

  lemma {:induction false} InsertIsStable(list: seq<Profile>, p: Profile, key: Key)
    ensures WithKey(Insert(list, p), key) == WithKey(list + [p], key)
  {
    hide Before, KeyOf;
    if list == [] || !Before(KeyOf(p), KeyOf(list[|list| - 1])) {
      assert Insert(list, p) == list + [p];
    } else {
      var n := |list| - 1;
      var rest, last := list[..n], list[n];
      assert Insert(list, p) == Insert(rest, p) + [last] && list == rest + [last];
      InsertIsStable(rest, p, key);
      WithKeyAppend(Insert(rest, p), last, key);
      WithKeyAppend(rest, p, key);
      WithKeyAppend(list, p, key);
      WithKeyAppend(rest, last, key);
      BeforeIsStrict(KeyOf(p), KeyOf(last));
      hide *;
    }
  }

  /** The sort ranks, and keeps the order within each rank. */
  lemma {:induction false} SortIsRankedAndStable(list: seq<Profile>)
    ensures Ranked(Sort(list)) && |Sort(list)| == |list|
    ensures forall p :: p in Sort(list) <==> p in list
    ensures forall key :: WithKey(Sort(list), key) == WithKey(list, key)
  {
    if list == [] {
    } else {
      var n := |list| - 1;
      var before := Sort(list[..n]);
      SortIsRankedAndStable(list[..n]);
      InsertIsRanked(before, list[n]);
      InsertMembers(before, list[n]);
      assert list == list[..n] + [list[n]];
      forall key ensures WithKey(Sort(list), key) == WithKey(list, key) {
        InsertIsStable(before, list[n], key);
        WithKeyAppend(before, list[n], key);
        WithKeyAppend(list[..n], list[n], key);
      }
    }
  }

  /** Only a profile of the rank puts something on the rank's list. */
  lemma {:induction false} KeyOccurs(list: seq<Profile>, key: Key) returns (i: nat)
    requires WithKey(list, key) != []
    ensures i < |list| && KeyOf(list[i]) == key
  {
    var n := |list| - 1;
    if KeyOf(list[n]) == key {
      i := n;
    } else {
      i := KeyOccurs(list[..n], key);
    }
  }

  ghost predicate SameRanks(a: seq<Profile>, b: seq<Profile>) {
    forall key :: WithKey(a, key) == WithKey(b, key)
  }

  lemma LastKeys(a: seq<Profile>, b: seq<Profile>)
    requires a != [] && Ranked(a) && Ranked(b) && SameRanks(a, b)
    ensures b != [] && KeyOf(a[|a| - 1]) == KeyOf(b[|b| - 1])
  {
    hide KeyOf;
    var n, m := |a| - 1, |b| - 1;
    var k := KeyOf(a[n]);
    assert WithKey(a, k) != [];
    var i := KeyOccurs(b, k);
    var l := KeyOf(b[m]);
    assert WithKey(b, l) != [];
    var j := KeyOccurs(a, l);
    hide WithKey;
    assert i < m ==> !Before(l, KeyOf(b[i]));
    assert j < n ==> !Before(k, KeyOf(a[j]));
  }

  /** Rank and order within each rank leave no freedom: there is one such list. */
  lemma {:induction false} RankingIsUnique(a: seq<Profile>, b: seq<Profile>)
    requires Ranked(a) && Ranked(b) && SameRanks(a, b)
    ensures a == b
  {
    if a == [] {
      if b != [] { LastKeys(b, a); }
    } else {
      LastKeys(a, b);
      var n, m := |a| - 1, |b| - 1;
      var k := KeyOf(a[n]);
      hide KeyOf, Before;
      assert WithKey(a, k) == WithKey(a[..n], k) + [a[n]];
      assert WithKey(b, k) == WithKey(b[..m], k) + [b[m]];
      assert WithKey(a, k) == WithKey(b, k);
      LastOfEqual(WithKey(a[..n], k), a[n], WithKey(b[..m], k), b[m]);
      forall key ensures WithKey(a[..n], key) == WithKey(b[..m], key) {
        if key != k {
          assert WithKey(a, key) == WithKey(a[..n], key);
          assert WithKey(b, key) == WithKey(b[..m], key);
        }
      }
      RankingIsUnique(a[..n], b[..m]);
      assert a == a[..n] + [a[n]];
    }
  }

  lemma LastOfEqual(s: seq<Profile>, x: Profile, t: seq<Profile>, y: Profile)
    requires s + [x] == t + [y]
    ensures s == t && x == y
  {
    assert (s + [x])[|s|] == x && (t + [y])[|t|] == y;
    assert (s + [x])[..|s|] == s && (t + [y])[..|t|] == t;
  }

  // ---------- discovery ----------

  /** Zero is no limit, and a negative limit counts from the end. */
  function Limited(list: seq<Profile>, limit: Option<int>): seq<Profile> {
    if limit.None? || limit.value == 0 then list
    else if limit.value > 0 then if limit.value < |list| then list[..limit.value] else list
    else if |list| + limit.value > 0 then list[..|list| + limit.value] else []
  }

  ghost function Discover(profiles: seq<Profile>, q: Query): seq<Profile> {
    Limited(Sort(Matches(q, profiles)), q.limit)
  }

  lemma {:induction false} MatchesMember(q: Query, profiles: seq<Profile>, p: Profile)
    ensures p in Matches(q, profiles) <==> p in profiles && Passes(q, p)
  {
    hide Passes;
    if profiles == [] {
    } else {
      MatchesMember(q, profiles[..|profiles| - 1], p);
      assert profiles == profiles[..|profiles| - 1] + [profiles[|profiles| - 1]];
    }
  }

  /** What is found passes every filter; without a limit everything that passes is found, and with one no
      profile left out ranks strictly before one returned. */
  lemma DiscoveryIsBest(profiles: seq<Profile>, q: Query, p: Profile)
    ensures p in Discover(profiles, q) ==> p in profiles && Passes(q, p)
    ensures (q.limit.None? || q.limit.value == 0) && p in profiles && Passes(q, p) ==> p in Discover(profiles, q)
    ensures p in profiles && Passes(q, p) && p !in Discover(profiles, q) ==>
              forall r | r in Discover(profiles, q) :: !Before(KeyOf(p), KeyOf(r))
    ensures Ranked(Discover(profiles, q))
  {
    hide Passes, Before, KeyOf, Matches, Sort;
    var found := Matches(q, profiles);
    MatchesMember(q, profiles, p);
    SortIsRankedAndStable(found);
    var result := Discover(profiles, q);
    LimitedIsPrefix(Sort(found), q.limit);
    PrefixIsBest(Sort(found), |result|, p);
  }

  function OrZero(value: Option<int>): int { if value.Some? then value.value else 0 }

  /** In what is found the priority numbers do not fall and, where they are equal, the capacities do not rise;
      and nothing that passes and is left out has a smaller number than something returned, or the same number
      and more capacity. */
  lemma DiscoveryPrefersCapacity(profiles: seq<Profile>, q: Query)
    ensures var found := Discover(profiles, q);
            forall i, j | 0 <= i < j < |found| ::
              && OrZero(found[i].priority) <= OrZero(found[j].priority)
              && (OrZero(found[i].priority) == OrZero(found[j].priority) ==>
                    OrZero(found[i].capacity) >= OrZero(found[j].capacity))
    ensures var found := Discover(profiles, q);
            forall p, r | p in profiles && Passes(q, p) && p !in found && r in found ::
              && OrZero(r.priority) <= OrZero(p.priority)
              && (OrZero(r.priority) == OrZero(p.priority) ==> OrZero(r.capacity) >= OrZero(p.capacity))
  {
    var found := Discover(profiles, q);
    if found != [] { DiscoveryIsBest(profiles, q, found[0]); }
    forall p, r | p in profiles && Passes(q, p) && p !in found && r in found ensures !Before(KeyOf(p), KeyOf(r)) {
      DiscoveryIsBest(profiles, q, p);
    }
    hide Discover, Passes;
  }

  /** Why a profile is left out, whatever its rank: it is not registered, it is of another type, it does not
      let the requester in, or it and the query both list services, slices or networks and share none. */
  ghost predicate Excluded(q: Query, p: Profile) {
    || p.status in {Suspended, Undiscoverable}
    || (q.targetType != "" && q.targetType != p.nfType)
    || (q.requesterType != "" && p.allowedNfTypes != [] && q.requesterType !in p.allowedNfTypes)
    || (q.services != [] && p.services != [] && forall s | s in q.services :: s !in p.services)
    || (q.snssais != [] && p.snssais != [] && forall s | s in p.snssais :: s !in q.snssais)
    || (q.plmns != [] && p.plmns != [] && forall s | s in p.plmns :: s !in q.plmns)
  }

  /** No discovery returns a profile that is excluded, and one without a limit returns all the others. */
  lemma DiscoveryExcludesExactly(profiles: seq<Profile>, q: Query, p: Profile)
    ensures p in Discover(profiles, q) ==> p in profiles && !Excluded(q, p)
    ensures q.limit.None? || q.limit.value == 0 ==>
            (p in Discover(profiles, q) <==> p in profiles && !Excluded(q, p))
  {
    DiscoveryIsBest(profiles, q, p);
    assert Excluded(q, p) <==> !Passes(q, p);
    hide Discover, Passes, Excluded;
  }

  lemma LimitedIsPrefix(list: seq<Profile>, limit: Option<int>)
    ensures |Limited(list, limit)| <= |list| && Limited(list, limit) == list[..|Limited(list, limit)|]
    ensures limit.None? || limit.value == 0 ==> Limited(list, limit) == list
  {}

  lemma PrefixIsBest(sorted: seq<Profile>, n: nat, p: Profile)
    requires Ranked(sorted) && n <= |sorted|
    ensures Ranked(sorted[..n]) && (p in sorted[..n] ==> p in sorted)
    ensures p in sorted && p !in sorted[..n] ==> forall r | r in sorted[..n] :: !Before(KeyOf(p), KeyOf(r))
  {
    hide Before, KeyOf;
    var result, rest := sorted[..n], sorted[n..];
    if p in sorted && p !in result {
      assert sorted == result + rest;
      var j :| 0 <= j < |rest| && rest[j] == p;
      assert sorted[n + j] == p;
      forall r | r in result ensures !Before(KeyOf(p), KeyOf(r)) {
        var i :| 0 <= i < |result| && result[i] == r;
        assert sorted[i] == r;
      }
    }
  }

  lemma {:induction false} WithKeyPrefix(list: seq<Profile>, n: nat, key: Key)
    requires n <= |list|
    ensures WithKey(list[..n], key) <= WithKey(list, key)
  {
    if n == |list| {
      assert list[..n] == list;
    } else {
      assert list[..|list| - 1][..n] == list[..n];
      WithKeyPrefix(list[..|list| - 1], n, key);
    }
  }

  /** Within a rank the result keeps the registration order and leaves out only from the end. */
  lemma DiscoveryIsStable(profiles: seq<Profile>, q: Query, key: Key)
    ensures WithKey(Discover(profiles, q), key) <= WithKey(Matches(q, profiles), key)
  {
    var found := Matches(q, profiles);
    SortIsRankedAndStable(found);
    var result := Discover(profiles, q);
    assert result == Sort(found)[..|result|];
    WithKeyPrefix(Sort(found), |result|, key);
  }

  lemma {:induction false} DnnIsNotMatched(profiles: seq<Profile>, q: Query, dnn: string)
    ensures Matches(q.(dnn := dnn), profiles) == Matches(q, profiles)
  {
    if profiles == [] {
    } else {
      DnnIsNotMatched(profiles[..|profiles| - 1], q, dnn);
    }
  }

  /** The data network name makes no difference to any discovery. */
  lemma DnnIsIgnored(profiles: seq<Profile>, q: Query, dnn: string)
    ensures Discover(profiles, q.(dnn := dnn)) == Discover(profiles, q)
  {
    DnnIsNotMatched(profiles, q, dnn);
  }

  /** How many are returned. */
  lemma DiscoveryCount(profiles: seq<Profile>, q: Query)
    ensures var n := |Matches(q, profiles)|;
            |Discover(profiles, q)| ==
            if q.limit.None? || q.limit.value == 0 || n <= q.limit.value then n
            else if q.limit.value > 0 then q.limit.value
            else if n + q.limit.value > 0 then n + q.limit.value else 0
  {
    SortIsRankedAndStable(Matches(q, profiles));
  }

  // ---------- the service ----------

  method AnyService(services: seq<string>, wanted: seq<string>) returns (found: bool)
    ensures found <==> exists s :: s in services && s in wanted
  {
    for i := 0 to |services|
      invariant forall k | 0 <= k < i :: services[k] !in wanted
    {
      if services[i] in wanted { return true; }
    }
    found := false;
  }

  method AnySnssai(wanted: seq<Snssai>, snssais: seq<Snssai>) returns (found: bool)
    ensures found <==> exists s :: s in wanted && s in snssais
  {
    found := false;
    for i := 0 to |wanted|
      invariant !found && forall k | 0 <= k < i :: wanted[k] !in snssais
    {
      for j := 0 to |snssais|
        invariant !found && wanted[i] !in snssais[..j]
      {
        if wanted[i].sst == snssais[j].sst && wanted[i].sd == snssais[j].sd {
          assert wanted[i] == snssais[j];
          found := true;
          break;
        }
      }
      if found {
        assert wanted[i] in snssais;
        break;
      }
      assert snssais[..|snssais|] == snssais;
    }
  }

  method AnyPlmn(wanted: seq<Plmn>, plmns: seq<Plmn>) returns (found: bool)
    ensures found <==> exists s :: s in wanted && s in plmns
  {
    found := false;
    for i := 0 to |wanted|
      invariant !found && forall k | 0 <= k < i :: wanted[k] !in plmns
    {
      for j := 0 to |plmns|
        invariant !found && wanted[i] !in plmns[..j]
      {
        if wanted[i].mcc == plmns[j].mcc && wanted[i].mnc == plmns[j].mnc {
          assert wanted[i] == plmns[j];
          found := true;
          break;
        }
      }
      if found {
        assert wanted[i] in plmns;
        break;
      }
      assert plmns[..|plmns|] == plmns;
    }
  }

  method CheckFilters(q: Query, p: Profile) returns (passes: bool)
    ensures passes == Passes(q, p)
  {
    if q.targetType != "" && p.nfType != q.targetType { return false; }
    if q.requesterType != "" && p.allowedNfTypes != [] {
      if q.requesterType !in p.allowedNfTypes { return false; }
    }
    if q.services != [] && p.services != [] {
      var serviceMatch := AnyService(p.services, q.services);
      if !serviceMatch { return false; }
    }
    if q.snssais != [] && p.snssais != [] {
      var snssaiMatch := AnySnssai(q.snssais, p.snssais);
      if !snssaiMatch { return false; }
    }
    if q.plmns != [] && p.plmns != [] {
      var plmnMatch := AnyPlmn(q.plmns, p.plmns);
      if !plmnMatch { return false; }
    }
    passes := p.status == Registered;
  }

  /** `profiles` are the registered profiles in the order of the dictionary. */
  method FindNfInstances(profiles: seq<Profile>, q: Query) returns (found: seq<Profile>)
    ensures found == Discover(profiles, q)
  {
    hide Passes;
    found := [];
    for i := 0 to |profiles|
      invariant found == Matches(q, profiles[..i])
    {
      assert profiles[..i + 1][..i] == profiles[..i];
      var passes := CheckFilters(q, profiles[i]);
      if passes { found := found + [profiles[i]]; }
    }
    assert profiles[..|profiles|] == profiles;
    found := Sort(found);
    if q.limit.Some? && q.limit.value != 0 {
      var bound := if q.limit.value > 0 then q.limit.value else |found| + q.limit.value;
      found := found[..if bound < 0 then 0 else if bound > |found| then |found| else bound];
    }
  }
}
