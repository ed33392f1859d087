/** The bounded expiring cache with its saved file (OpenTelelmetry_Data/cache-json-engine.py).
    `Step` says what one call does to the contents and to the file. `IdealStep` is the cache a
    user has in mind: it drops entries the moment they expire and has no file. */
module JsonCache {
  import opened Common

  // A stored value is never looked at, only handed back.
  type Json = string

  datatype Entry = Entry(data: Json, stamp: real)

  type Contents = map<string, Entry>

  datatype Config = Config(expiryTime: real, maxSize: int) {
    // Nothing can be held when max_size is negative, just as when it is zero.
    function Capacity(): nat { if maxSize < 0 then 0 else maxSize }
  }

  /** What the object holds in memory and what its file held when it was last written. */
  datatype Store = Store(cache: Contents, file: Contents)

  datatype Op =
    | Get(key: string)
    | Set(key: string, value: Json)
    | Remove(key: string)
    | ClearExpired
    | GetAll
    | Reload  // a new object is built from the file

  datatype Answer = Found(value: Option<Json>) | All(items: map<string, Json>) | Done

  datatype Call = Call(op: Op, time: real)

  // ---------- one call ----------

  predicate Fresh(cfg: Config, e: Entry, now: real) { now - e.stamp < cfg.expiryTime }

  function Unexpired(cfg: Config, m: Contents, now: real): Contents {
    map k | k in m && Fresh(cfg, m[k], now) :: m[k]
  }

  function Data(m: Contents): map<string, Json> { map k | k in m :: m[k].data }

  ghost predicate IsOldest(m: Contents, k: string) {
    k in m && forall j | j in m :: m[k].stamp <= m[j].stamp
  }

  ghost predicate DistinctStamps(m: Contents) {
    forall j, k | j in m && k in m && m[j].stamp == m[k].stamp :: j == k
  }

  lemma {:induction false} OldestExists(m: Contents)
    requires m != map[]
    ensures exists k :: IsOldest(m, k)
    decreases |m|
  {
    var x :| x in m;
    var rest := m - {x};
    assert forall j | j in m :: j == x || j in rest;
    if rest == map[] {
      assert IsOldest(m, x);
    } else {
      assert |rest| < |m| by { assert rest.Keys == m.Keys - {x}; }
      OldestExists(rest);
      var y :| IsOldest(rest, y);
      assert IsOldest(m, if m[x].stamp <= m[y].stamp then x else y);
    }
  }

  ghost function Evict(m: Contents): Contents
    requires m != map[]
  {
    OldestExists(m);
    var k :| IsOldest(m, k);
    m - {k}
  }

  ghost function Step(cfg: Config, s: Store, call: Call): (Store, Answer) {
    match call.op
    case Get(k) =>
      if k !in s.cache then (s, Found(None))
      else if Fresh(cfg, s.cache[k], call.time) then (s, Found(Some(s.cache[k].data)))
      else (s.(cache := s.cache - {k}), Found(None))
    case Set(k, v) =>
      var added := s.cache[k := Entry(v, call.time)];
      var kept := if |added| > cfg.maxSize then Evict(added) else added;
      (Store(kept, kept), Done)
    case Remove(k) =>
      if k in s.cache then (Store(s.cache - {k}, s.cache - {k}), Done) else (s, Done)
    case ClearExpired =>
      var kept := map k | k in s.cache && call.time - s.cache[k].stamp <= cfg.expiryTime :: s.cache[k];
      (Store(kept, kept), Done)
    case GetAll => (s, All(Data(Unexpired(cfg, s.cache, call.time))))
    case Reload => (s.(cache := s.file), Done)
  }

  /** The cache without leftovers: everything expired at the time of the call is gone first. */
  ghost function IdealStep(cfg: Config, live: Contents, call: Call): (Contents, Answer) {
    var now := Unexpired(cfg, live, call.time);
    match call.op
    case Get(k) => (now, Found(if k in now then Some(now[k].data) else None))
    case Set(k, v) =>
      var added := Unexpired(cfg, now[k := Entry(v, call.time)], call.time);
      (if |added| > cfg.Capacity() then Evict(added) else added, Done)
    case Remove(k) => (now - {k}, Done)
    case ClearExpired => (now, Done)
    case GetAll => (now, All(Data(now)))
    case Reload => (now, Done)
  }

  // ---------- runs ----------

  /** The clock never goes back, and every set reads a later time than any set before it. */
  ghost predicate WellTimed(calls: seq<Call>, lastSet: real, now: real) {
    && (forall i | 0 <= i < |calls| :: now <= calls[i].time && (calls[i].op.Set? ==> lastSet < calls[i].time))
    && (forall i, j | 0 <= i < j < |calls| ::
          calls[i].time <= calls[j].time && (calls[i].op.Set? && calls[j].op.Set? ==> calls[i].time < calls[j].time))
  }

  ghost function Answers(cfg: Config, s: Store, calls: seq<Call>): (answers: seq<Answer>)
    ensures |answers| == |calls|
    decreases |calls|
  {
    if calls == [] then [] else
      var (s', a) := Step(cfg, s, calls[0]);
      [a] + Answers(cfg, s', calls[1..])
  }

  ghost function IdealAnswers(cfg: Config, live: Contents, calls: seq<Call>): (answers: seq<Answer>)
    ensures |answers| == |calls|
    decreases |calls|
  {
    if calls == [] then [] else
      var (live', a) := IdealStep(cfg, live, calls[0]);
      [a] + IdealAnswers(cfg, live', calls[1..])
  }

  /** Within max_size, stamped at distinct past times, and what memory lacks of the file is expired. */
  ghost predicate Consistent(cfg: Config, s: Store, lastSet: real, now: real) {
    && lastSet <= now
    && |s.file| <= cfg.Capacity()
    && DistinctStamps(s.file)
    && (forall k | k in s.file :: s.file[k].stamp <= lastSet)
    && (forall k | k in s.cache :: k in s.file && s.file[k] == s.cache[k])
    && (forall k | k in s.file && k !in s.cache :: !Fresh(cfg, s.file[k], now))
  }

  lemma SubmapSize(a: Contents, b: Contents)
    requires a.Keys <= b.Keys
    ensures |a| <= |b| && (a.Keys != b.Keys ==> |a| < |b|)
  {
    assert |b.Keys - a.Keys| == |b.Keys| - |a.Keys|;
    if a.Keys != b.Keys {
      var k :| k in b.Keys && k !in a.Keys;
      assert k in b.Keys - a.Keys;
    }
  }

  lemma EvictShape(m: Contents) returns (k: string)
    requires m != map[]
    ensures IsOldest(m, k) && Evict(m) == m - {k} && |Evict(m)| == |m| - 1
  {
    OldestExists(m);
    k :| IsOldest(m, k) && Evict(m) == m - {k};
    assert (m - {k}).Keys == m.Keys - {k};
  }

  /** An evicted entry is the oldest, so while anything expired is held it is an expired one that
      goes; the unexpired entries lose their oldest exactly when they alone exceed the capacity. */
  lemma EvictionSparesUnexpired(cfg: Config, m: Contents, now: real)
    requires DistinctStamps(m) && m != map[] && |m| == cfg.Capacity() + 1
    ensures var live := Unexpired(cfg, m, now);
            Unexpired(cfg, Evict(m), now) == if |live| > cfg.Capacity() then Evict(live) else live
  {
    var live := Unexpired(cfg, m, now);
    var k := EvictShape(m);
    if live.Keys == m.Keys {
      assert live == m;
    } else {
      assert |live| <= cfg.Capacity() by { SubmapSize(live, m); }
      var dead :| dead in m && dead !in live;
      OldestIsExpired(cfg, m, now, k, dead);
    }
  }

  /** With one expired entry the oldest is expired as well, and its loss does not show. */
  lemma OldestIsExpired(cfg: Config, m: Contents, now: real, k: string, dead: string)
    requires IsOldest(m, k) && dead in m && !Fresh(cfg, m[dead], now)
    ensures Unexpired(cfg, m - {k}, now) == Unexpired(cfg, m, now)
  {
    assert !Fresh(cfg, m[k], now);
  }

  /** Entries that expired in between make no difference to what is unexpired now. */
  lemma SameUnexpired(cfg: Config, a: Contents, b: Contents, earlier: real, now: real)
    requires earlier <= now
    requires forall k | k in a :: k in b && b[k] == a[k]
    requires forall k | k in b && k !in a :: !Fresh(cfg, b[k], earlier)
    ensures Unexpired(cfg, a, now) == Unexpired(cfg, b, now)
  {}

  lemma UnexpiredAfterAdd(cfg: Config, m: Contents, k: string, e: Entry, earlier: real, now: real)
    requires earlier <= now
    ensures Unexpired(cfg, Unexpired(cfg, Unexpired(cfg, m, earlier), now)[k := e], now) ==
            Unexpired(cfg, m[k := e], now)
  {}

  lemma AddedIsConsistent(cfg: Config, s: Store, k: string, e: Entry, lastSet: real, now: real)
    requires Consistent(cfg, s, lastSet, now) && lastSet < e.stamp
    ensures var added := s.cache[k := e];
            && DistinctStamps(added) && |added| <= cfg.Capacity() + 1
            && forall j | j in added :: added[j].stamp <= e.stamp
  {
    SubmapSize(s.cache, s.file);
    AddedIsDistinct(s.cache, k, e);
    hide DistinctStamps;
    assert forall j | j in s.cache :: s.cache[j].stamp <= lastSet;
    assert |s.cache| <= cfg.Capacity();
    hide Consistent;
    assert s.cache[k := e].Keys == s.cache.Keys + {k};
  }

  lemma AddedIsDistinct(m: Contents, k: string, e: Entry)
    requires DistinctStamps(m) && forall j | j in m :: m[j].stamp < e.stamp
    ensures DistinctStamps(m[k := e])
  {}

  lemma SubsetIsConsistent(cfg: Config, m: Contents, kept: Contents, lastSet: real, now: real)
    requires kept.Keys <= m.Keys && forall k | k in kept :: kept[k] == m[k]
    requires DistinctStamps(m) && |kept| <= cfg.Capacity() && lastSet <= now
    requires forall k | k in m :: m[k].stamp <= lastSet
    ensures Consistent(cfg, Store(kept, kept), lastSet, now)
  {}

  /** Dropping expired entries from memory alone, or only letting time pass, changes nothing. */
  lemma StaysConsistent(cfg: Config, s: Store, cache: Contents, lastSet: real, now: real, later: real)
    requires Consistent(cfg, s, lastSet, now) && now <= later
    requires forall k | k in cache :: k in s.cache && cache[k] == s.cache[k]
    requires forall k | k in s.cache && k !in cache :: !Fresh(cfg, s.cache[k], later)
    ensures Consistent(cfg, Store(cache, s.file), lastSet, later)
  {
    hide DistinctStamps;
  }

  lemma UnexpiredAfterRemove(cfg: Config, m: Contents, k: string, now: real)
    ensures Unexpired(cfg, m - {k}, now) == Unexpired(cfg, m, now) - {k}
  {}

  lemma StepSet(cfg: Config, s: Store, call: Call, lastSet: real, now: real)
    requires call.op.Set? && Consistent(cfg, s, lastSet, now) && now <= call.time && lastSet < call.time
    ensures var s' := Step(cfg, s, call).0;
            && Consistent(cfg, s', call.time, call.time)
            && IdealStep(cfg, Unexpired(cfg, s.cache, now), call) == (Unexpired(cfg, s'.cache, call.time), Done)
  {
    var e := Entry(call.op.value, call.time);
    var added := s.cache[call.op.key := e];
    AddedIsConsistent(cfg, s, call.op.key, e, lastSet, now);
    UnexpiredAfterAdd(cfg, s.cache, call.op.key, e, now, call.time);
    if |added| > cfg.maxSize {
      EvictionSparesUnexpired(cfg, added, call.time);
      var k := EvictShape(added);
      SubsetIsConsistent(cfg, added, Evict(added), call.time, call.time);
    } else {
      SubsetIsConsistent(cfg, added, added, call.time, call.time);
      SubmapSize(Unexpired(cfg, added, call.time), added);
    }
  }

  lemma RemoveIsConsistent(cfg: Config, s: Store, k: string, lastSet: real, now: real, later: real)
    requires Consistent(cfg, s, lastSet, now) && now <= later
    ensures Consistent(cfg, if k in s.cache then Store(s.cache - {k}, s.cache - {k}) else s, lastSet, later)
  {
    hide Fresh, DistinctStamps;
    if k in s.cache {
      assert |s.cache - {k}| <= cfg.Capacity() by { SubmapSize(s.cache - {k}, s.file); }
      SubsetIsConsistent(cfg, s.file, s.cache - {k}, lastSet, later);
    } else {
      StaysConsistent(cfg, s, s.cache, lastSet, now, later);
    }
  }

  lemma StepRemove(cfg: Config, s: Store, call: Call, lastSet: real, now: real)
    requires call.op.Remove? && Consistent(cfg, s, lastSet, now) && now <= call.time
    ensures var s' := Step(cfg, s, call).0;
            && Consistent(cfg, s', lastSet, call.time)
            && IdealStep(cfg, Unexpired(cfg, s.cache, now), call) == (Unexpired(cfg, s'.cache, call.time), Done)
  {
    var k := call.op.key;
    SameUnexpired(cfg, Unexpired(cfg, s.cache, now), s.cache, now, call.time);
    UnexpiredAfterRemove(cfg, s.cache, k, call.time);
    RemoveIsConsistent(cfg, s, k, lastSet, now, call.time);
    assert k !in s.cache ==> s.cache - {k} == s.cache;
    hide Consistent, Unexpired, Fresh;
  }

  lemma StepClear(cfg: Config, s: Store, call: Call, lastSet: real, now: real)
    requires call.op.ClearExpired? && Consistent(cfg, s, lastSet, now) && now <= call.time
    ensures var s' := Step(cfg, s, call).0;
            && Consistent(cfg, s', lastSet, call.time)
            && IdealStep(cfg, Unexpired(cfg, s.cache, now), call) == (Unexpired(cfg, s'.cache, call.time), Done)
  {
    var s' := Step(cfg, s, call).0;
    SameUnexpired(cfg, Unexpired(cfg, s.cache, now), s.cache, now, call.time);
    SameUnexpired(cfg, s'.cache, s.cache, call.time, call.time);
    SubmapSize(s'.file, s.file);
  }

  lemma StepGet(cfg: Config, s: Store, call: Call, lastSet: real, now: real)
    requires call.op.Get? && Consistent(cfg, s, lastSet, now) && now <= call.time
    ensures var (s', a) := Step(cfg, s, call);
            && Consistent(cfg, s', lastSet, call.time)
            && IdealStep(cfg, Unexpired(cfg, s.cache, now), call) == (Unexpired(cfg, s'.cache, call.time), a)
  {
    var cache := Step(cfg, s, call).0.cache;
    StaysConsistent(cfg, s, cache, lastSet, now, call.time);
    SameUnexpired(cfg, Unexpired(cfg, s.cache, now), s.cache, now, call.time);
    SameUnexpired(cfg, cache, s.cache, call.time, call.time);
    var k := call.op.key;
    assert k in Unexpired(cfg, s.cache, call.time) <==> k in s.cache && Fresh(cfg, s.cache[k], call.time);
    hide Consistent, Unexpired, Fresh;
  }

  lemma StepReload(cfg: Config, s: Store, call: Call, lastSet: real, now: real)
    requires call.op.Reload? && Consistent(cfg, s, lastSet, now) && now <= call.time
    ensures var s' := Step(cfg, s, call).0;
            && Consistent(cfg, s', lastSet, call.time)
            && IdealStep(cfg, Unexpired(cfg, s.cache, now), call) == (Unexpired(cfg, s'.cache, call.time), Done)
  {
    SameUnexpired(cfg, Unexpired(cfg, s.cache, now), s.cache, now, call.time);
    SameUnexpired(cfg, s.cache, s.file, now, call.time);
  }

  /** One call: the answer is the ideal one, and so is what stays unexpired. */
  lemma StepFollowsIdeal(cfg: Config, s: Store, call: Call, lastSet: real, now: real)
    requires Consistent(cfg, s, lastSet, now) && now <= call.time && (call.op.Set? ==> lastSet < call.time)
    ensures var (s', a) := Step(cfg, s, call);
            && Consistent(cfg, s', if call.op.Set? then call.time else lastSet, call.time)
            && IdealStep(cfg, Unexpired(cfg, s.cache, now), call) == (Unexpired(cfg, s'.cache, call.time), a)
  {
    match call.op
    case Set(_, _) => StepSet(cfg, s, call, lastSet, now);
    case Remove(_) => StepRemove(cfg, s, call, lastSet, now);
    case ClearExpired => StepClear(cfg, s, call, lastSet, now);
    case Get(_) => StepGet(cfg, s, call, lastSet, now);
    case GetAll => SameUnexpired(cfg, Unexpired(cfg, s.cache, now), s.cache, now, call.time);
    case Reload => StepReload(cfg, s, call, lastSet, now);
  }

  lemma {:induction false} AnswersAreIdeal(cfg: Config, s: Store, calls: seq<Call>, lastSet: real, now: real)
    requires Consistent(cfg, s, lastSet, now) && WellTimed(calls, lastSet, now)
    ensures Answers(cfg, s, calls) == IdealAnswers(cfg, Unexpired(cfg, s.cache, now), calls)
    decreases calls
  {
    if calls == [] {
    } else {
      StepFollowsIdeal(cfg, s, calls[0], lastSet, now);
      var (s', _) := Step(cfg, s, calls[0]);
      AnswersAreIdeal(cfg, s', calls[1..], if calls[0].op.Set? then calls[0].time else lastSet, calls[0].time);
    }
  }

  /** Two caches that hold the same unexpired entries cannot be told apart by any later calls,
      whatever expired entries either of them, or its file, still holds. */
  lemma LeftoversAreInvisible(cfg: Config, s: Store, t: Store, calls: seq<Call>, lastSet: real, now: real)
    requires Consistent(cfg, s, lastSet, now) && Consistent(cfg, t, lastSet, now)
    requires Unexpired(cfg, s.cache, now) == Unexpired(cfg, t.cache, now)
    requires WellTimed(calls, lastSet, now)
    ensures Answers(cfg, s, calls) == Answers(cfg, t, calls)
  {
    AnswersAreIdeal(cfg, s, calls, lastSet, now);
    AnswersAreIdeal(cfg, t, calls, lastSet, now);
  }

  // ---------- calls that change nothing for the others ----------

  /** Looking up, listing, clearing what expired and building a new object from the file. */
  predicate Passive(op: Op) { !op.Set? && !op.Remove? }

  function Kept<T>(list: seq<T>, keep: seq<bool>): seq<T>
    requires |list| == |keep|
  {
    if list == [] then [] else (if keep[0] then [list[0]] else []) + Kept(list[1..], keep[1..])
  }

  lemma FirstIsTimed(calls: seq<Call>, lastSet: real, now: real)
    requires calls != [] && WellTimed(calls, lastSet, now)
    ensures now <= calls[0].time && (calls[0].op.Set? ==> lastSet < calls[0].time)
    ensures WellTimed(calls[1..], if calls[0].op.Set? then calls[0].time else lastSet, calls[0].time)
  {}

  lemma OneTimedBefore(call: Call, calls: seq<Call>, lastSet: real, now: real)
    requires now <= call.time && (call.op.Set? ==> lastSet < call.time)
    requires WellTimed(calls, if call.op.Set? then call.time else lastSet, call.time)
    ensures WellTimed([call] + calls, lastSet, now)
  {}

  lemma TimedFromEarlier(calls: seq<Call>, lastSet: real, now: real, lastSet': real, now': real)
    requires WellTimed(calls, lastSet, now) && lastSet' <= lastSet && now' <= now
    ensures WellTimed(calls, lastSet', now')
  {}

  lemma {:induction false} KeptAreTimed(calls: seq<Call>, keep: seq<bool>, lastSet: real, now: real)
    requires WellTimed(calls, lastSet, now) && |keep| == |calls|
    ensures WellTimed(Kept(calls, keep), lastSet, now)
  {
    if calls == [] {
    } else {
      FirstIsTimed(calls, lastSet, now);
      var call := calls[0];
      var lastSet' := if call.op.Set? then call.time else lastSet;
      KeptAreTimed(calls[1..], keep[1..], lastSet', call.time);
      var rest := Kept(calls[1..], keep[1..]);
      assert Kept(calls, keep) == (if keep[0] then [call] else []) + rest;
      hide Kept, WellTimed;
      if keep[0] {
        OneTimedBefore(call, rest, lastSet, now);
      } else {
        assert [] + rest == rest;
        TimedFromEarlier(rest, lastSet', call.time, lastSet, now);
      }
    }
  }

  /** An ideal step depends only on what is unexpired, and a passive one leaves just that. */
  lemma IdealStepOfUnexpired(cfg: Config, a: Contents, b: Contents, call: Call, now: real)
    requires Unexpired(cfg, a, now) == Unexpired(cfg, b, now) && now <= call.time
    ensures Unexpired(cfg, a, call.time) == Unexpired(cfg, b, call.time)
    ensures IdealStep(cfg, a, call) == IdealStep(cfg, b, call)
    ensures Passive(call.op) ==>
            Unexpired(cfg, IdealStep(cfg, a, call).0, call.time) == Unexpired(cfg, b, call.time)
  {
    SameUnexpired(cfg, Unexpired(cfg, a, now), a, now, call.time);
    SameUnexpired(cfg, Unexpired(cfg, b, now), b, now, call.time);
    SameUnexpired(cfg, Unexpired(cfg, a, call.time), a, call.time, call.time);
    hide Unexpired, Fresh;
  }

  lemma {:induction false} IdealWithoutPassive(
      cfg: Config, a: Contents, b: Contents, calls: seq<Call>, keep: seq<bool>, lastSet: real, now: real)
    requires WellTimed(calls, lastSet, now) && |keep| == |calls|
    requires forall i | 0 <= i < |calls| && !keep[i] :: Passive(calls[i].op)
    requires Unexpired(cfg, a, now) == Unexpired(cfg, b, now)
    ensures Kept(IdealAnswers(cfg, a, calls), keep) == IdealAnswers(cfg, b, Kept(calls, keep))
    decreases calls
  {
    hide IdealStep, Unexpired, WellTimed, Passive;
    if calls == [] {
    } else {
      var call := calls[0];
      FirstIsTimed(calls, lastSet, now);
      IdealStepOfUnexpired(cfg, a, b, call, now);
      var a', b' := IdealStep(cfg, a, call).0, if keep[0] then IdealStep(cfg, b, call).0 else b;
      IdealWithoutPassive(
        cfg, a', b', calls[1..], keep[1..], if call.op.Set? then call.time else lastSet, call.time);
      assert IdealAnswers(cfg, a, calls)[1..] == IdealAnswers(cfg, a', calls[1..]);
      var rest := Kept(calls[1..], keep[1..]);
      if keep[0] {
        assert Kept(calls, keep) == [call] + rest && ([call] + rest)[1..] == rest;
        assert IdealAnswers(cfg, b, Kept(calls, keep)) == [IdealStep(cfg, b, call).1] + IdealAnswers(cfg, b', rest);
      } else {
        assert Kept(calls, keep) == rest;
      }
    }
  }

  /** Leaving out any of a run's lookups, listings, clearings and reloads leaves every other answer the
      same: when and how often they come makes no difference to the rest. */
  lemma PassiveCallsAreInvisible(
      cfg: Config, s: Store, calls: seq<Call>, keep: seq<bool>, lastSet: real, now: real)
    requires Consistent(cfg, s, lastSet, now) && WellTimed(calls, lastSet, now) && |keep| == |calls|
    requires forall i | 0 <= i < |calls| && !keep[i] :: Passive(calls[i].op)
    ensures Kept(Answers(cfg, s, calls), keep) == Answers(cfg, s, Kept(calls, keep))
  {
    var live := Unexpired(cfg, s.cache, now);
    AnswersAreIdeal(cfg, s, calls, lastSet, now);
    IdealWithoutPassive(cfg, live, live, calls, keep, lastSet, now);
    KeptAreTimed(calls, keep, lastSet, now);
    AnswersAreIdeal(cfg, s, Kept(calls, keep), lastSet, now);
    hide *;
  }

  /** Two caches with the same unexpired entries answer one call the same. */
  lemma SameAnswer(cfg: Config, s: Store, t: Store, call: Call, lastSet: real, earlier: real, now: real)
    requires Consistent(cfg, s, lastSet, earlier) && Consistent(cfg, t, lastSet, now) && earlier <= now <= call.time
    requires Unexpired(cfg, s.cache, now) == Unexpired(cfg, t.cache, now)
    requires call.op.Set? ==> lastSet < call.time
    ensures Step(cfg, s, call).1 == Step(cfg, t, call).1
  {
    StepFollowsIdeal(cfg, s, call, lastSet, earlier);
    StepFollowsIdeal(cfg, t, call, lastSet, now);
    var a, b := Unexpired(cfg, s.cache, earlier), Unexpired(cfg, t.cache, now);
    SameUnexpired(cfg, a, s.cache, earlier, now);
    SameUnexpired(cfg, b, t.cache, now, now);
    IdealStepOfUnexpired(cfg, a, b, call, now);
    hide *;
  }

  lemma PassiveKeepsUnexpired(cfg: Config, s: Store, call: Call, lastSet: real, now: real)
    requires Consistent(cfg, s, lastSet, now) && now <= call.time && Passive(call.op)
    ensures Consistent(cfg, Step(cfg, s, call).0, lastSet, call.time)
    ensures Unexpired(cfg, Step(cfg, s, call).0.cache, call.time) == Unexpired(cfg, s.cache, call.time)
  {
    StepFollowsIdeal(cfg, s, call, lastSet, now);
    SameUnexpired(cfg, Unexpired(cfg, s.cache, now), s.cache, now, call.time);
    hide Consistent, Unexpired, Step;
  }

  /** A call after nothing but passive ones is answered as if there were none. */
  lemma {:induction false} LastAfterPassives(
      cfg: Config, s: Store, between: seq<Call>, last: Call, lastSet: real, now: real)
    requires Consistent(cfg, s, lastSet, now) && WellTimed(between + [last], lastSet, now)
    requires forall c | c in between :: Passive(c.op)
    ensures Answers(cfg, s, between + [last])[|between|] == Step(cfg, s, last).1
    decreases between
  {
    var calls := between + [last];
    FirstIsTimed(calls, lastSet, now);
    if between == [] {
      assert calls == [last];
    } else {
      var call, rest := between[0], between[1..];
      assert calls[1..] == rest + [last] && calls[0] == call;
      var s' := Step(cfg, s, call).0;
      assert Answers(cfg, s, calls) == [Step(cfg, s, call).1] + Answers(cfg, s', rest + [last]);
      assert Passive(call.op) && !call.op.Set?;
      LastIsTimed(rest, last, lastSet, call.time);
      hide Answers, Consistent, Unexpired, WellTimed, Step;
      PassiveKeepsUnexpired(cfg, s, call, lastSet, now);
      LastAfterPassives(cfg, s', rest, last, lastSet, call.time);
      SameAnswer(cfg, s, s', last, lastSet, now, call.time);
    }
  }

  lemma LastIsTimed(calls: seq<Call>, last: Call, lastSet: real, now: real)
    requires WellTimed(calls + [last], lastSet, now)
    ensures now <= last.time && (last.op.Set? ==> lastSet < last.time)
  {
    assert (calls + [last])[|calls|] == last;
  }

  /** And so is a last call after a first one. */
  lemma EndsAlone(cfg: Config, s: Store, first: Call, between: seq<Call>, last: Call, lastSet: real, now: real)
    requires Consistent(cfg, s, lastSet, now) && WellTimed([first] + between + [last], lastSet, now)
    requires forall c | c in between :: Passive(c.op)
    ensures now <= first.time <= last.time && (first.op.Set? ==> lastSet < first.time)
    ensures Answers(cfg, s, [first] + between + [last])[|between| + 1] == Step(cfg, Step(cfg, s, first).0, last).1
  {
    var calls, tail := [first] + between + [last], between + [last];
    assert calls == [first] + tail;
    assert calls[0] == first && calls[1..] == tail;
    AnswersAfterFirst(cfg, s, first, tail);
    hide Answers, Consistent, WellTimed, Step;
    FirstIsTimed(calls, lastSet, now);
    var lastSet' := if first.op.Set? then first.time else lastSet;
    LastIsTimed(between, last, lastSet', first.time);
    StepFollowsIdeal(cfg, s, first, lastSet, now);
    hide IdealStep;
    LastAfterPassives(cfg, Step(cfg, s, first).0, between, last, lastSet', first.time);
  }

  lemma AnswersAfterFirst(cfg: Config, s: Store, first: Call, tail: seq<Call>)
    ensures Answers(cfg, s, [first] + tail) == [Step(cfg, s, first).1] + Answers(cfg, Step(cfg, s, first).0, tail)
  {
    hide Step;
    assert ([first] + tail)[1..] == tail;
  }

  /** A value that was set is found, whatever was read, listed, cleared or reloaded meanwhile, exactly until it is
      as old as the expiry time, if the cache may hold anything at all. */
  lemma SetThenGet(cfg: Config, s: Store, k: string, v: Json, t: real, between: seq<Call>, later: real, lastSet: real,
      now: real)
    requires Consistent(cfg, s, lastSet, now)
    requires WellTimed([Call(Set(k, v), t)] + between + [Call(Get(k), later)], lastSet, now)
    requires forall c | c in between :: Passive(c.op)
    ensures Answers(cfg, s, [Call(Set(k, v), t)] + between + [Call(Get(k), later)])[|between| + 1] ==
            Found(if later - t < cfg.expiryTime && cfg.maxSize >= 1 then Some(v) else None)
  {
    var put, get := Call(Set(k, v), t), Call(Get(k), later);
    EndsAlone(cfg, s, put, between, get, lastSet, now);
    SetIsThere(cfg, s, k, v, t, lastSet, now);
    hide Answers, Consistent, WellTimed;
  }

  lemma SetIsThere(cfg: Config, s: Store, k: string, v: Json, t: real, lastSet: real, now: real)
    requires Consistent(cfg, s, lastSet, now) && now <= t && lastSet < t
    ensures var s' := Step(cfg, s, Call(Set(k, v), t)).0;
            if cfg.maxSize >= 1 then k in s'.cache && s'.cache[k] == Entry(v, t) else k !in s'.cache
  {
    var added := s.cache[k := Entry(v, t)];
    AddedIsConsistent(cfg, s, k, Entry(v, t), lastSet, now);
    assert |added| >= 1 by { assert k in added.Keys; }
    if |added| > cfg.maxSize {
      var gone := EvictShape(added);
      if cfg.maxSize >= 1 {
        var other := SomeOther(added, k);
      } else {
        assert |added| == 1;
        OnlyOne(added, k, gone);
      }
    }
    hide Consistent;
  }

  lemma SomeOther(m: Contents, k: string) returns (j: string)
    requires |m| >= 2 && k in m
    ensures j in m && j != k
  {
    var rest := m.Keys - {k};
    assert |rest| == |m.Keys| - 1;
    j :| j in rest;
  }

  lemma OnlyOne(m: Contents, j: string, k: string)
    requires |m| == 1 && j in m && k in m
    ensures j == k
  {
    assert |m.Keys - {j}| == 0;
  }

  /** A key that was removed is not found until it is set again. */
  lemma RemoveThenGet(cfg: Config, s: Store, k: string, t: real, between: seq<Call>, later: real, lastSet: real,
      now: real)
    requires Consistent(cfg, s, lastSet, now)
    requires WellTimed([Call(Remove(k), t)] + between + [Call(Get(k), later)], lastSet, now)
    requires forall c | c in between :: Passive(c.op)
    ensures Answers(cfg, s, [Call(Remove(k), t)] + between + [Call(Get(k), later)])[|between| + 1] == Found(None)
  {
    var remove, get := Call(Remove(k), t), Call(Get(k), later);
    EndsAlone(cfg, s, remove, between, get, lastSet, now);
    hide Answers, Consistent, WellTimed;
  }

  /** At exactly the expiry time a clearing still spares an entry that a lookup drops and a listing leaves out. */
  lemma ClearingSparesTheBoundary(cfg: Config, s: Store, k: string, time: real)
    requires k in s.cache
    ensures var age := time - s.cache[k].stamp;
            && (k in Step(cfg, s, Call(ClearExpired, time)).0.cache <==> age <= cfg.expiryTime)
            && (k in Step(cfg, s, Call(Get(k), time)).0.cache <==> age < cfg.expiryTime)
            && var items := Step(cfg, s, Call(GetAll, time)).1.items;
               (k in items <==> age < cfg.expiryTime) && (k in items ==> items[k] == s.cache[k].data)
  {}

  // ---------- which keys a full cache keeps ----------

  /** What a set loses is one key, only when the cache is full, and older than all that stays. */
  lemma EvictedIsOldest(cfg: Config, s: Store, call: Call, lastSet: real, now: real)
    requires call.op.Set? && Consistent(cfg, s, lastSet, now) && now <= call.time && lastSet < call.time
    ensures var added := s.cache[call.op.key := Entry(call.op.value, call.time)];
            var kept := Step(cfg, s, call).0.cache;
            && |kept| <= cfg.Capacity()
            && (forall k | k in kept :: k in added && kept[k] == added[k])
            && (forall j, k | j in added && j !in kept && k in kept :: added[j].stamp < kept[k].stamp)
            && |kept| == if |added| > cfg.maxSize then |added| - 1 else |added|
  {
    var added := s.cache[call.op.key := Entry(call.op.value, call.time)];
    AddedIsConsistent(cfg, s, call.op.key, Entry(call.op.value, call.time), lastSet, now);
    if |added| > cfg.maxSize {
      var k := EvictShape(added);
    }
  }

  /** What a cache without bound or expiry would hold: every key with its last value. */
  function Latest(calls: seq<Call>): Contents {
    if calls == [] then map[] else
      var before := Latest(calls[..|calls| - 1]);
      var last := calls[|calls| - 1];
      if last.op.Set? then before[last.op.key := Entry(last.op.value, last.time)] else before
  }

  function Newer(m: Contents, k: string): set<string>
    requires k in m
  {
    set j | j in m && m[k].stamp < m[j].stamp
  }

  function MostRecent(m: Contents, n: nat): Contents {
    map k | k in m && |Newer(m, k)| < n :: m[k]
  }

  ghost function After(cfg: Config, calls: seq<Call>): Store {
    if calls == [] then Store(map[], map[]) else
      Step(cfg, After(cfg, calls[..|calls| - 1]), calls[|calls| - 1]).0
  }

  /** The time of the last set of a run. */
  function LastSet(calls: seq<Call>, before: real): real {
    if calls == [] then before
    else if calls[|calls| - 1].op.Set? then calls[|calls| - 1].time
    else LastSet(calls[..|calls| - 1], before)
  }

  function LastTime(calls: seq<Call>, before: real): real { if calls == [] then before else calls[|calls| - 1].time }

  lemma {:induction false} LastSetIsEarlier(calls: seq<Call>, lastSet: real, call: Call)
    requires lastSet < call.time && forall c | c in calls && c.op.Set? :: c.time < call.time
    ensures LastSet(calls, lastSet) < call.time
  {
    if calls == [] || calls[|calls| - 1].op.Set? {
    } else {
      LastSetIsEarlier(calls[..|calls| - 1], lastSet, call);
    }
  }

  /** Every run from an empty cache stays consistent; so the cache and its file never hold more than
      max_size entries, and all that was shown of one call holds at every point of a run. */
  lemma {:induction false} EveryRunIsConsistent(cfg: Config, calls: seq<Call>, lastSet: real, now: real)
    requires lastSet <= now && WellTimed(calls, lastSet, now)
    ensures Consistent(cfg, After(cfg, calls), LastSet(calls, lastSet), LastTime(calls, now))
    ensures |After(cfg, calls).cache| <= cfg.Capacity() && |After(cfg, calls).file| <= cfg.Capacity()
  {
    if calls == [] {
    } else {
      var n := |calls| - 1;
      EveryRunIsConsistent(cfg, calls[..n], lastSet, now);
      if calls[n].op.Set? { LastSetIsEarlier(calls[..n], lastSet, calls[n]); }
      StepFollowsIdeal(cfg, After(cfg, calls[..n]), calls[n], LastSet(calls[..n], lastSet), LastTime(calls[..n], now));
      hide Step, IdealStep, WellTimed;
    }
    SubmapSize(After(cfg, calls).cache, After(cfg, calls).file);
  }

  ghost predicate NothingExpires(cfg: Config, calls: seq<Call>) {
    forall i, j | 0 <= i <= j < |calls| && calls[i].op.Set? :: calls[j].time - calls[i].time < cfg.expiryTime
  }

  lemma SubsetSize(a: set<string>, b: set<string>)
    requires a <= b
    ensures |a| <= |b| && (a != b ==> |a| < |b|)
  {
    assert |b - a| == |b| - |a|;
  }

  // Adding a newest key: it is newer than every other key.
  lemma NewerAfterAdd(m: Contents, k: string, e: Entry)
    requires forall j | j in m :: m[j].stamp < e.stamp
    ensures Newer(m[k := e], k) == {}
    ensures forall j | j in m && j != k :: Newer(m[k := e], j) == Newer(m, j) + {k}
  {}

  // With a kept key, every newer key is kept.
  lemma NewerAreKept(m: Contents, n: nat, k: string)
    requires k in MostRecent(m, n)
    ensures Newer(m, k) <= MostRecent(m, n).Keys - {k}
  {
    forall j | j in Newer(m, k) ensures j in MostRecent(m, n) {
      SubsetSize(Newer(m, j), Newer(m, k));
    }
  }

  lemma OldestOfRecent(m: Contents, n: nat, o: string)
    requires DistinctStamps(m) && IsOldest(MostRecent(m, n), o)
    ensures Newer(m, o) == MostRecent(m, n).Keys - {o}
    ensures |MostRecent(m, n)| == |Newer(m, o)| + 1 <= n
  {
    NewerAreKept(m, n, o);
  }

  // A kept key survives a newer key unless it is the oldest of n and the new key was not kept.
  lemma SurvivesAdd(m: Contents, n: nat, k: string, j: string, o: string)
    requires DistinctStamps(m) && IsOldest(MostRecent(m, n), o) && j in MostRecent(m, n) && j != k
    ensures |Newer(m, j) + {k}| < n <==> k in MostRecent(m, n) || |MostRecent(m, n)| < n || j != o
  {
    var kept := MostRecent(m, n);
    OldestOfRecent(m, n, o);
    NewerAreKept(m, n, j);
    if k in kept {
      if k in Newer(m, j) {
        assert Newer(m, j) + {k} == Newer(m, j);
      } else {
        assert j in Newer(m, k) && j !in Newer(m, j);
        SubsetSize(Newer(m, j), Newer(m, k));
      }
    } else {
      assert k !in Newer(m, j);
      if j != o {
        SubsetSize(Newer(m, j), kept.Keys - {j} - {o});
      }
    }
  }

  lemma KeysAfterAdd(after: set<string>, kept: set<string>, k: string, o: string, roomy: bool)
    requires k in after && (k in kept ==> roomy)
    requires forall j | j != k :: j in after <==> j in kept && (roomy || j != o)
    ensures after == if roomy then kept + {k} else kept - {o} + {k}
  {}

  lemma RecentKeysAfterAdd(m: Contents, n: nat, k: string, e: Entry, o: string)
    requires DistinctStamps(m) && forall j | j in m :: m[j].stamp < e.stamp
    requires IsOldest(MostRecent(m, n), o)
    ensures var kept := MostRecent(m, n);
            MostRecent(m[k := e], n).Keys ==
            if k in kept || |kept| < n then kept.Keys + {k} else kept.Keys - {o} + {k}
  {
    var kept := MostRecent(m, n);
    var after := MostRecent(m[k := e], n);
    NewerAfterAdd(m, k, e);
    OldestOfRecent(m, n, o);
    var roomy := k in kept || |kept| < n;
    forall j | j != k ensures j in after <==> j in kept && (roomy || j != o) {
      if j in m { SubsetSize(Newer(m, j), Newer(m, j) + {k}); }
      if j in kept { SurvivesAdd(m, n, k, j, o); }
    }
    assert k in after;
    hide MostRecent, Newer, DistinctStamps, IsOldest;
    KeysAfterAdd(after.Keys, kept.Keys, k, o, roomy);
  }

  // When nothing was kept there is no room at all, or there was no other key.
  lemma FirstRecentKey(m: Contents, n: nat, k: string, e: Entry)
    requires MostRecent(m, n) == map[] && forall j | j in m :: m[j].stamp < e.stamp
    ensures MostRecent(m[k := e], n).Keys == if n == 0 then {} else {k}
  {
    NewerAfterAdd(m, k, e);
    forall j | j in m && j != k ensures j !in MostRecent(m[k := e], n) {
      assert j !in MostRecent(m, n);
      SubsetSize(Newer(m, j), Newer(m, j) + {k});
    }
  }

  lemma SameSubmap(a: Contents, b: Contents, m: Contents)
    requires a.Keys == b.Keys
    requires forall k | k in a :: k in m && a[k] == m[k]
    requires forall k | k in b :: k in m && b[k] == m[k]
    ensures a == b
  {}

  lemma SameOldest(m: Contents, k: string, e: Entry, o: string, gone: string)
    requires DistinctStamps(m) && k !in m && forall j | j in m :: m[j].stamp < e.stamp
    requires IsOldest(m, o) && IsOldest(m[k := e], gone)
    ensures gone == o
  {
    assert o in m[k := e];
  }

  lemma ReplaceOne(keys: set<string>, n: nat, k: string, o: string)
    requires |keys| <= n && (k !in keys ==> o != k)
    ensures (if k in keys || |keys| < n then keys + {k} else keys - {o} + {k})
            == if |keys + {k}| > n then keys + {k} - {o} else keys + {k}
  {
    if k in keys { assert keys + {k} == keys; }
  }

  lemma RecentKeys(m: Contents, n: nat, k: string, e: Entry, gone: string, o: string)
    requires DistinctStamps(m) && forall j | j in m :: m[j].stamp < e.stamp
    requires IsOldest(MostRecent(m, n)[k := e], gone) && IsOldest(MostRecent(m, n), o)
    ensures var keys := MostRecent(m, n).Keys + {k};
            MostRecent(m[k := e], n).Keys == if |keys| > n then keys - {gone} else keys
  {
    var kept := MostRecent(m, n);
    assert DistinctStamps(kept) && forall j | j in kept :: kept[j].stamp < e.stamp;
    assert |kept| <= n by { OldestOfRecent(m, n, o); }
    RecentKeysAfterAdd(m, n, k, e, o);
    hide MostRecent, DistinctStamps;
    if k in kept {
      assert kept.Keys + {k} == kept.Keys;
    } else {
      SameOldest(kept, k, e, o, gone);
      ReplaceOne(kept.Keys, n, k, o);
    }
  }

  lemma RecentKeysOrFirst(m: Contents, n: nat, k: string, e: Entry, gone: string)
    requires DistinctStamps(m) && forall j | j in m :: m[j].stamp < e.stamp
    requires IsOldest(MostRecent(m, n)[k := e], gone)
    ensures var keys := MostRecent(m, n).Keys + {k};
            MostRecent(m[k := e], n).Keys == if |keys| > n then keys - {gone} else keys
  {
    hide MostRecent, DistinctStamps;
    if MostRecent(m, n) == map[] {
      FirstRecentKey(m, n, k, e);
      assert MostRecent(m, n).Keys + {k} == {k} && gone == k;
    } else {
      OldestExists(MostRecent(m, n));
      var o :| IsOldest(MostRecent(m, n), o);
      RecentKeys(m, n, k, e, gone, o);
    }
  }

  lemma RecentIsSubmap(m: Contents, n: nat)
    ensures forall k | k in MostRecent(m, n) :: k in m && MostRecent(m, n)[k] == m[k]
  {}

  lemma MostRecentAfterAdd(m: Contents, n: nat, k: string, e: Entry)
    requires DistinctStamps(m) && forall j | j in m :: m[j].stamp < e.stamp
    ensures var added := MostRecent(m, n)[k := e];
            MostRecent(m[k := e], n) == if |added| > n then Evict(added) else added
  {
    RecentIsSubmap(m, n);
    RecentIsSubmap(m[k := e], n);
    hide MostRecent, DistinctStamps;
    var added := MostRecent(m, n)[k := e];
    assert added.Keys == MostRecent(m, n).Keys + {k};
    var gone := EvictShape(added);
    RecentKeysOrFirst(m, n, k, e, gone);
    hide IsOldest, Evict;
    var all := m[k := e];
    SameSubmap(if |added| > n then Evict(added) else added, MostRecent(all, n), all);
  }

  /** Each stamp is the time of a set. */
  lemma {:induction false} LatestIsSet(calls: seq<Call>, k: string) returns (i: nat)
    requires k in Latest(calls)
    ensures i < |calls| && calls[i].op.Set? && Latest(calls)[k].stamp == calls[i].time
  {
    var n := |calls| - 1;
    if calls[n].op.Set? && calls[n].op.key == k {
      i := n;
    } else {
      i := LatestIsSet(calls[..n], k);
    }
  }

  lemma LatestIsEarlier(calls: seq<Call>, time: real)
    requires forall c | c in calls && c.op.Set? :: c.time < time
    ensures forall k | k in Latest(calls) :: Latest(calls)[k].stamp < time
  {
    forall k | k in Latest(calls) ensures Latest(calls)[k].stamp < time {
      var i := LatestIsSet(calls, k);
      assert calls[i] in calls;
    }
  }

  lemma LatestIsFresh(cfg: Config, calls: seq<Call>, time: real)
    requires forall c | c in calls && c.op.Set? :: time - c.time < cfg.expiryTime
    ensures forall k | k in Latest(calls) :: Fresh(cfg, Latest(calls)[k], time)
  {
    forall k | k in Latest(calls) ensures Fresh(cfg, Latest(calls)[k], time) {
      var i := LatestIsSet(calls, k);
      assert calls[i] in calls;
    }
  }

  lemma {:induction false} LatestStamps(calls: seq<Call>, lastSet: real, now: real)
    requires WellTimed(calls, lastSet, now)
    ensures DistinctStamps(Latest(calls))
  {
    if calls == [] {
    } else {
      var n := |calls| - 1;
      LatestStamps(calls[..n], lastSet, now);
      if calls[n].op.Set? {
        LatestIsEarlier(calls[..n], calls[n].time);
        AddedIsDistinct(Latest(calls[..n]), calls[n].op.key, Entry(calls[n].op.value, calls[n].time));
      }
      hide DistinctStamps, WellTimed;
    }
  }

  lemma NothingToDo(cfg: Config, m: Contents, call: Call)
    requires !call.op.Set? && !call.op.Remove? && forall k | k in m :: Fresh(cfg, m[k], call.time)
    ensures Step(cfg, Store(m, m), call).0 == Store(m, m)
  {}

  /** While nothing is removed and nothing expires, the cache holds exactly the max_size most
      recently set keys with their last values, and so does its file. */
  lemma {:induction false} KeepsMostRecent(cfg: Config, calls: seq<Call>, lastSet: real, now: real)
    requires WellTimed(calls, lastSet, now) && NothingExpires(cfg, calls)
    requires forall c | c in calls :: !c.op.Remove?
    ensures After(cfg, calls) == var m := MostRecent(Latest(calls), cfg.Capacity()); Store(m, m)
  {
    if calls == [] {
    } else {
      var before := calls[..|calls| - 1];
      var last := calls[|calls| - 1];
      assert forall c | c in before :: c in calls;
      KeepsMostRecent(cfg, before, lastSet, now);
      LatestStamps(before, lastSet, now);
      LastIsLater(cfg, calls, lastSet, now);
      hide WellTimed, NothingExpires, DistinctStamps, Step, Latest, MostRecent;
      if last.op.Set? {
        LatestIsEarlier(before, last.time);
        SetMostRecent(cfg, Latest(before), last);
        LatestAfterSet(calls);
      } else {
        LatestIsFresh(cfg, before, last.time);
        RecentIsSubmap(Latest(before), cfg.Capacity());
        NothingToDo(cfg, MostRecent(Latest(before), cfg.Capacity()), last);
        LatestAfterOther(calls);
      }
    }
  }

  lemma LastIsLater(cfg: Config, calls: seq<Call>, lastSet: real, now: real)
    requires calls != [] && WellTimed(calls, lastSet, now) && NothingExpires(cfg, calls)
    ensures var before, last := calls[..|calls| - 1], calls[|calls| - 1];
            && (last.op.Set? ==> forall c | c in before && c.op.Set? :: c.time < last.time)
            && (forall c | c in before && c.op.Set? :: last.time - c.time < cfg.expiryTime)
  {}

  lemma LatestAfterSet(calls: seq<Call>)
    requires calls != [] && calls[|calls| - 1].op.Set?
    ensures var last := calls[|calls| - 1];
            Latest(calls) == Latest(calls[..|calls| - 1])[last.op.key := Entry(last.op.value, last.time)]
  {}

  lemma LatestAfterOther(calls: seq<Call>)
    requires calls != [] && !calls[|calls| - 1].op.Set?
    ensures Latest(calls) == Latest(calls[..|calls| - 1])
  {}

  lemma SetMostRecent(cfg: Config, m: Contents, call: Call)
    requires call.op.Set? && DistinctStamps(m) && forall k | k in m :: m[k].stamp < call.time
    ensures var added := m[call.op.key := Entry(call.op.value, call.time)];
            var kept, after := MostRecent(m, cfg.Capacity()), MostRecent(added, cfg.Capacity());
            Step(cfg, Store(kept, kept), call).0 == Store(after, after)
  {
    hide MostRecent, DistinctStamps;
    MostRecentAfterAdd(m, cfg.Capacity(), call.op.key, Entry(call.op.value, call.time));
    hide Evict;
  }

  // ---------- the object ----------

  class EnhancedJsonCache {
    const cfg: Config
    var cache: Contents
    var file: Contents

    ghost function View(): Store
      reads this
    {
      Store(cache, file)
    }

    constructor (cfg: Config, saved: Option<Contents>)
      ensures this.cfg == cfg && View() == match saved { case None => Store(map[], map[]) case Some(m) => Store(m, m) }
    {
      this.cfg := cfg;
      this.cache := match saved { case None => map[] case Some(m) => m };
      this.file := match saved { case None => map[] case Some(m) => m };
    }

    method SaveCache()
      modifies this`file
      ensures file == cache
    {
      file := cache;
    }

    method Get(key: string, now: real) returns (value: Option<Json>)
      modifies this`cache
      ensures (View(), Found(value)) == Step(cfg, old(View()), Call(Op.Get(key), now))
    {
      if key in cache {
        var item := cache[key];
        if now - item.stamp < cfg.expiryTime {
          return Some(item.data);
        }
        cache := cache - {key};
      }
      value := None;
    }

    /** With tied stamps any of the oldest keys may be the one to go. */
    method Set(key: string, value: Json, now: real)
      modifies this
      ensures var added := old(cache)[key := Entry(value, now)];
              if |added| > cfg.maxSize then exists k :: IsOldest(added, k) && cache == added - {k} else cache == added
      ensures file == cache
      ensures DistinctStamps(old(cache)[key := Entry(value, now)]) ==>
                View() == Step(cfg, old(View()), Call(Op.Set(key, value), now)).0
    {
      cache := cache[key := Entry(value, now)];
      ghost var added := cache;
      if |cache| > cfg.maxSize {
        var oldest := OldestKey();
        ghost var other := EvictShape(cache);
        cache := cache - {oldest};
      }
      SaveCache();
    }

    method OldestKey() returns (oldest: string)
      requires cache != map[]
      ensures IsOldest(cache, oldest)
    {
      oldest :| oldest in cache.Keys;
      var rest := cache.Keys - {oldest};
      while rest != {}
        invariant oldest in cache && rest <= cache.Keys
        invariant forall j | j in cache && j !in rest :: cache[oldest].stamp <= cache[j].stamp
        decreases rest
      {
        var k :| k in rest;
        if cache[k].stamp < cache[oldest].stamp { oldest := k; }
        rest := rest - {k};
      }
    }

    method ClearExpired(now: real)
      modifies this
      ensures (View(), Done) == Step(cfg, old(View()), Call(Op.ClearExpired, now))
    {
      var before := cache;
      var expired := set k | k in cache && now - cache[k].stamp > cfg.expiryTime;
      while expired != {}
        invariant forall k | k in expired :: k in before && now - before[k].stamp > cfg.expiryTime
        invariant forall k | k in cache :: k in before && cache[k] == before[k]
        invariant forall k | k in before :: k in cache <==> k in expired || now - before[k].stamp <= cfg.expiryTime
        decreases expired
      {
        var k :| k in expired;
        cache := cache - {k};
        expired := expired - {k};
      }
      assert cache == map k | k in before && now - before[k].stamp <= cfg.expiryTime :: before[k];
      SaveCache();
    }

    /** The clock is read once per entry; `clock(k)` is the reading taken at entry k. All readings
        lie between `first` and `last`. */
    method GetAll(clock: string -> real, ghost first: real, ghost last: real) returns (items: map<string, Json>)
      requires forall k | k in cache :: first <= clock(k) <= last
      ensures forall k | k in items :: k in cache && items[k] == cache[k].data && Fresh(cfg, cache[k], first)
      ensures forall k | k in cache && Fresh(cfg, cache[k], last) :: k in items
      ensures first == last ==> All(items) == Step(cfg, View(), Call(Op.GetAll, first)).1
    {
      items := map k | k in cache && clock(k) - cache[k].stamp < cfg.expiryTime :: cache[k].data;
    }

    method Remove(key: string, ghost now: real)
      modifies this
      ensures (View(), Done) == Step(cfg, old(View()), Call(Op.Remove(key), now))
    {
      if key in cache {
        cache := cache - {key};
        SaveCache();
      }
    }
  }
}
