/** Converged charging: sessions, quotas, usage and charging data records
    (5G_Emulator_API/core_network/chf.py), over exact rationals. An absent quantity is zero. */
module Chf {
  import opened Common

  type Id = nat

  datatype Container = Container(time: int, volume: int, uplink: int, downlink: int)

  /** What one request says about one rating group. */
  datatype Usage = Usage(group: int, containers: seq<Container>)

  datatype Totals = Totals(time: int, volume: int, uplink: int, downlink: int)

  /** One entry of a session's rating-group dictionary, which keeps its order. */
  datatype Group = Group(group: int, usedUnits: int, charge: real)

  datatype Session = Session(subscriber: string, usage: Totals, charge: real, groups: seq<Group>, closed: bool)

  /** A record has the session's usage dictionary itself, here named by the session, but the charge and the
      groups as they were; `hasEnd` says whether the session already had an end time. */
  datatype Cdr = Cdr(session: Id, charge: real, groups: seq<Group>, hasEnd: bool)

  datatype State = State(sessions: map<Id, Session>, records: seq<Cdr>, sequence: nat)

  datatype Grant = Granted(group: int, time: int, volume: int) | QuotaLimitReached(group: int)

  datatype Failure = SessionNotFound

  // ---------- rating ----------

  function RatePerMb(group: int): real {
    if group == 2 then 0.0 else if group == 3 then 0.02
    else if group == 4 then 0.015 else if group == 5 then 0.005 else 0.01
  }

  function RatePerMin(group: int): real { if group == 2 then 0.05 else 0.0 }

  function ChargeOf(group: int, c: Container): real {
    c.time as real / 60.0 * RatePerMin(group) + c.volume as real / 1048576.0 * RatePerMb(group)
  }

  function Quota(group: int): Grant {
    if group == 2 then Granted(group, 1800, 0)
    else if group == 3 then Granted(group, 3600, 524288000)
    else if group == 4 then Granted(group, 3600, 209715200)
    else if group == 5 then Granted(group, 86400, 10485760)
    else Granted(group, 3600, 104857600)
  }

  /** An unknown subscriber has a balance of 100. */
  function Balance(balances: map<string, real>, subscriber: string): real {
    if subscriber in balances then balances[subscriber] else 100.0
  }

  // ---------- what happens to a session ----------

  /** A container was reported for a group, or a quota was granted to it. */
  datatype Event = Used(group: int, container: Container) | Tracked(group: int)

  predicate HasGroup(groups: seq<Group>, group: int) { exists i | 0 <= i < |groups| :: groups[i].group == group }

  function Plus(t: Totals, c: Container): Totals {
    Totals(t.time + c.time, t.volume + c.volume, t.uplink + c.uplink, t.downlink + c.downlink)
  }

  function Charge(groups: seq<Group>, group: int, volume: int, amount: real): seq<Group> {
    if groups == [] then []
    else
      var n := |groups| - 1;
      if groups[n].group == group
      then groups[..n] + [Group(group, groups[n].usedUnits + volume, groups[n].charge + amount)]
      else Charge(groups[..n], group, volume, amount) + [groups[n]]
  }

  function Apply(s: Session, e: Event): Session {
    match e
    case Used(group, c) =>
      s.(usage := Plus(s.usage, c), charge := s.charge + ChargeOf(group, c),
         groups := Charge(s.groups, group, c.volume, ChargeOf(group, c)))
    case Tracked(group) => if HasGroup(s.groups, group) then s else s.(groups := s.groups + [Group(group, 0, 0.0)])
  }

  function Play(s: Session, events: seq<Event>): Session {
    if events == [] then s else Apply(Play(s, events[..|events| - 1]), events[|events| - 1])
  }

  function Opened(subscriber: string): Session { Session(subscriber, Totals(0, 0, 0, 0), 0.0, [], false) }

  function UsedEvents(u: Usage): seq<Event> {
    seq(|u.containers|, (i: nat) requires i < |u.containers| => Used(u.group, u.containers[i]))
  }

  function TrackedEvents(u: Usage, solvent: bool): seq<Event> { if solvent then [Tracked(u.group)] else [] }

  /** In an update the usage is recorded first, and the group tracked after it. */
  function Events(usages: seq<Usage>, recording: bool, solvent: bool): seq<Event> {
    if usages == [] then []
    else
      var n := |usages| - 1;
      Events(usages[..n], recording, solvent) +
      ((if recording then UsedEvents(usages[n]) else []) + TrackedEvents(usages[n], solvent))
  }

  function Grants(usages: seq<Usage>, solvent: bool): seq<Grant> {
    seq(|usages|, (i: nat) requires i < |usages| =>
      if solvent then Quota(usages[i].group) else QuotaLimitReached(usages[i].group))
  }

  // ---------- the requests ----------

  datatype Op =
    | Create(id: Id, subscriber: string, usages: seq<Usage>, balances: map<string, real>)
    | Update(id: Id, usages: seq<Usage>, balances: map<string, real>)
    | Release(id: Id, usages: seq<Usage>)

  /** Usage in a first request is not recorded, and a closed session goes on taking requests. */
  function OpEvents(op: Op, subscriber: string): seq<Event> {
    match op
    case Create(_, _, usages, balances) => Events(usages, false, Balance(balances, subscriber) > 0.0)
    case Update(_, usages, balances) => Events(usages, true, Balance(balances, subscriber) > 0.0)
    case Release(_, usages) => Events(usages, true, false)
  }

  function RecordOf(id: Id, s: Session): Cdr { Cdr(id, s.charge, s.groups, s.closed) }

  function Step(s: State, op: Op): (State, Result<seq<Grant>, Failure>) {
    match op
    case Create(id, subscriber, usages, balances) =>
      (State(s.sessions[id := Play(Opened(subscriber), OpEvents(op, subscriber))], s.records, s.sequence + 1),
       Ok(Grants(usages, Balance(balances, subscriber) > 0.0)))
    case Update(id, usages, balances) =>
      if id !in s.sessions then (s, Err(SessionNotFound))
      else
        var session := s.sessions[id];
        (State(s.sessions[id := Play(session, OpEvents(op, session.subscriber))], s.records, s.sequence + 1),
         Ok(Grants(usages, Balance(balances, session.subscriber) > 0.0)))
    case Release(id, usages) =>
      if id !in s.sessions then (s, Err(SessionNotFound))
      else
        var session := Play(s.sessions[id], OpEvents(op, s.sessions[id].subscriber));
        (State(s.sessions[id := session.(closed := true)], s.records + [RecordOf(id, session)], s.sequence + 1), Ok([]))
  }

  function Empty(): State { State(map[], [], 0) }

  function Run(ops: seq<Op>): State {
    if ops == [] then Empty() else Step(Run(ops[..|ops| - 1]), ops[|ops| - 1]).0
  }

  /** The random id of a new session is not in use. */
  ghost predicate FreshIds(ops: seq<Op>) {
    forall i | 0 <= i < |ops| && ops[i].Create? :: ops[i].id !in Run(ops[..i]).sessions
  }

  // ---------- sums over a history ----------

  function UsageSum(events: seq<Event>): Totals {
    if events == [] then Totals(0, 0, 0, 0)
    else
      var before, e := UsageSum(events[..|events| - 1]), events[|events| - 1];
      if e.Used? then Plus(before, e.container) else before
  }

  function ChargeSum(events: seq<Event>): real {
    if events == [] then 0.0
    else
      var before, e := ChargeSum(events[..|events| - 1]), events[|events| - 1];
      if e.Used? then before + ChargeOf(e.group, e.container) else before
  }

  /** The charge of the usage that was reported after its group had been granted a quota. */
  function TrackedSum(events: seq<Event>): real {
    if events == [] then 0.0
    else
      var before, e := events[..|events| - 1], events[|events| - 1];
      TrackedSum(before) + if e.Used? && Tracked(e.group) in before then ChargeOf(e.group, e.container) else 0.0
  }

  function UntrackedSum(events: seq<Event>): real {
    if events == [] then 0.0
    else
      var before, e := events[..|events| - 1], events[|events| - 1];
      UntrackedSum(before) + if e.Used? && Tracked(e.group) !in before then ChargeOf(e.group, e.container) else 0.0
  }

  function GroupSum(groups: seq<Group>): real {
    if groups == [] then 0.0 else GroupSum(groups[..|groups| - 1]) + groups[|groups| - 1].charge
  }

  ghost predicate NonNegative(events: seq<Event>) {
    forall e | e in events && e.Used? :: e.container.time >= 0 && e.container.volume >= 0
  }

  /** Every use came after a grant to its group. */
  ghost predicate GrantedFirst(events: seq<Event>) {
    forall i | 0 <= i < |events| && events[i].Used? :: Tracked(events[i].group) in events[..i]
  }

  lemma {:induction false} SumsSplit(events: seq<Event>)
    ensures ChargeSum(events) == TrackedSum(events) + UntrackedSum(events)
  {
    hide ChargeOf;
    if events == [] {
    } else {
      SumsSplit(events[..|events| - 1]);
    }
  }

  lemma ChargeIsNonNegative(group: int, c: Container)
    requires c.time >= 0 && c.volume >= 0
    ensures ChargeOf(group, c) >= 0.0
  {
    assert c.time as real / 60.0 >= 0.0 && c.volume as real / 1048576.0 >= 0.0;
  }

  lemma {:induction false} UntrackedIsNonNegative(events: seq<Event>)
    requires NonNegative(events)
    ensures UntrackedSum(events) >= 0.0
  {
    hide ChargeOf;
    if events == [] {
    } else {
      var n := |events| - 1;
      assert events == events[..n] + [events[n]];
      UntrackedIsNonNegative(events[..n]);
      if events[n].Used? { ChargeIsNonNegative(events[n].group, events[n].container); }
    }
  }

  lemma {:induction false} GrantedFirstLeavesNothing(events: seq<Event>)
    requires GrantedFirst(events)
    ensures UntrackedSum(events) == 0.0
  {
    hide ChargeOf;
    if events == [] {
    } else {
      var n := |events| - 1;
      assert forall i | 0 <= i < n :: events[..n][..i] == events[..i];
      assert events[..n] == events[..n];
      GrantedFirstLeavesNothing(events[..n]);
    }
  }

  // ---------- the session is the sum of its history ----------

  ghost predicate DistinctGroups(groups: seq<Group>) {
    forall i, j | 0 <= i < j < |groups| :: groups[i].group != groups[j].group
  }

  lemma {:induction false} ChargeKeepsGroups(groups: seq<Group>, group: int, volume: int, amount: real)
    ensures |Charge(groups, group, volume, amount)| == |groups|
    ensures forall i | 0 <= i < |groups| :: Charge(groups, group, volume, amount)[i].group == groups[i].group
  {
    if groups == [] {
    } else {
      ChargeKeepsGroups(groups[..|groups| - 1], group, volume, amount);
    }
  }

  lemma HasGroupOneMore(groups: seq<Group>, group: int)
    requires groups != []
    ensures HasGroup(groups, group) <==> groups[|groups| - 1].group == group || HasGroup(groups[..|groups| - 1], group)
  {}

  lemma {:induction false} ChargeAdds(groups: seq<Group>, group: int, volume: int, amount: real)
    ensures GroupSum(Charge(groups, group, volume, amount)) ==
            GroupSum(groups) + if HasGroup(groups, group) then amount else 0.0
  {
    if groups == [] {
    } else {
      var n := |groups| - 1;
      HasGroupOneMore(groups, group);
      hide HasGroup;
      if groups[n].group == group {
        assert Charge(groups, group, volume, amount)[..n] == groups[..n];
      } else {
        ChargeAdds(groups[..n], group, volume, amount);
        ChargeKeepsGroups(groups[..n], group, volume, amount);
        assert Charge(groups, group, volume, amount)[..n] == Charge(groups[..n], group, volume, amount);
      }
    }
  }

  lemma {:induction false} GroupsAreTracked(s: Session, events: seq<Event>, group: int)
    ensures HasGroup(Play(s, events).groups, group) <==> HasGroup(s.groups, group) || Tracked(group) in events
  {
    if events == [] {
    } else {
      var n := |events| - 1;
      var before, e := Play(s, events[..n]), events[n];
      assert events == events[..n] + [e];
      GroupsAreTracked(s, events[..n], group);
      match e
      case Used(g, c) => ChargeKeepsGroups(before.groups, g, c.volume, ChargeOf(g, c));
      case Tracked(g) =>
        var added := Apply(before, e).groups;
        assert !HasGroup(before.groups, g) ==>
          added[|before.groups|].group == g && added[..|before.groups|] == before.groups;
        if HasGroup(before.groups, group) {
          var i :| 0 <= i < |before.groups| && before.groups[i].group == group;
          assert added[i].group == group;
        }
    }
  }

  /** What was reported for one group after it had been granted a quota. */
  function TrackedFor(events: seq<Event>, group: int): (int, real) {
    if events == [] then (0, 0.0)
    else
      var before, e := events[..|events| - 1], events[|events| - 1];
      var (units, amount) := TrackedFor(before, group);
      if e.Used? && e.group == group && Tracked(group) in before
      then (units + e.container.volume, amount + ChargeOf(group, e.container)) else (units, amount)
  }

  lemma {:induction false} ChargeAt(groups: seq<Group>, group: int, volume: int, amount: real, i: nat)
    requires DistinctGroups(groups) && i < |groups|
    ensures |Charge(groups, group, volume, amount)| == |groups|
    ensures Charge(groups, group, volume, amount)[i] ==
            if groups[i].group == group then Group(group, groups[i].usedUnits + volume, groups[i].charge + amount)
            else groups[i]
  {
    var n := |groups| - 1;
    ChargeKeepsGroups(groups, group, volume, amount);
    if groups[n].group == group {
    } else if i == n {
      ChargeKeepsGroups(groups[..n], group, volume, amount);
    } else {
      ChargeAt(groups[..n], group, volume, amount, i);
    }
  }

  lemma {:induction false} NothingUntracked(events: seq<Event>, group: int)
    requires Tracked(group) !in events
    ensures TrackedFor(events, group) == (0, 0.0)
  {
    if events == [] {
    } else {
      var n := |events| - 1;
      assert events == events[..n] + [events[n]];
      NothingUntracked(events[..n], group);
    }
  }

  lemma {:induction false} PlayKeepsGroupsDistinct(s: Session, events: seq<Event>)
    requires DistinctGroups(s.groups)
    ensures DistinctGroups(Play(s, events).groups)
  {
    if events == [] {
    } else {
      var n := |events| - 1;
      var before, e := Play(s, events[..n]), events[n];
      PlayKeepsGroupsDistinct(s, events[..n]);
      if e.Used? { ChargeKeepsGroups(before.groups, e.group, e.container.volume, ChargeOf(e.group, e.container)); }
    }
  }

  /** Each rating group has exactly what was reported for it once it was tracked. */
  lemma {:induction false} GroupsHoldTrackedUsage(subscriber: string, events: seq<Event>, i: nat)
    requires i < |Play(Opened(subscriber), events).groups|
    ensures var g := Play(Opened(subscriber), events).groups[i];
            (g.usedUnits, g.charge) == TrackedFor(events, g.group)
  {
    hide ChargeOf;
    var n := |events| - 1;
    var before, e := Play(Opened(subscriber), events[..n]), events[n];
    PlayKeepsGroupsDistinct(Opened(subscriber), events[..n]);
    match e
    case Used(group, c) =>
      ChargeKeepsGroups(before.groups, group, c.volume, ChargeOf(group, c));
      ChargeAt(before.groups, group, c.volume, ChargeOf(group, c), i);
      GroupsHoldTrackedUsage(subscriber, events[..n], i);
      GroupsAreTracked(Opened(subscriber), events[..n], before.groups[i].group);
      assert HasGroup(before.groups, before.groups[i].group);
    case Tracked(group) =>
      if i < |before.groups| {
        GroupsHoldTrackedUsage(subscriber, events[..n], i);
      } else {
        GroupsAreTracked(Opened(subscriber), events[..n], group);
        NothingUntracked(events[..n], group);
      }
  }

  /** Charging conserves: a session's totals are the sums over everything reported for it, its charge is the
      rated sum, and its rating groups together have the charge of what was reported once tracked. */
  lemma {:induction false} SessionIsSum(subscriber: string, events: seq<Event>)
    ensures var s := Play(Opened(subscriber), events);
            s.usage == UsageSum(events) && s.charge == ChargeSum(events) && GroupSum(s.groups) == TrackedSum(events)
  {
    hide ChargeOf;
    if events == [] {
    } else {
      var n := |events| - 1;
      var before, e := Play(Opened(subscriber), events[..n]), events[n];
      SessionIsSum(subscriber, events[..n]);
      match e
      case Used(group, c) =>
        ChargeAdds(before.groups, group, c.volume, ChargeOf(group, c));
        GroupsAreTracked(Opened(subscriber), events[..n], group);
      case Tracked(group) =>
        assert (before.groups + [Group(group, 0, 0.0)])[..|before.groups|] == before.groups;
    }
  }

  /** So with no negative usage the groups never add up to more than the session; they fall short by what was
      reported before its group was granted, and by nothing when every grant came first. */
  lemma GroupsNeverExceedTotal(subscriber: string, events: seq<Event>)
    requires NonNegative(events)
    ensures var s := Play(Opened(subscriber), events);
            GroupSum(s.groups) <= s.charge && s.charge - GroupSum(s.groups) == UntrackedSum(events)
    ensures GrantedFirst(events) ==>
            GroupSum(Play(Opened(subscriber), events).groups) == Play(Opened(subscriber), events).charge
  {
    SessionIsSum(subscriber, events);
    SumsSplit(events);
    UntrackedIsNonNegative(events);
    if GrantedFirst(events) { GrantedFirstLeavesNothing(events); }
  }

  // ---------- whole runs ----------

  /** Everything that the run reported or granted for a session since it was created. */
  function History(ops: seq<Op>, id: Id): Option<(string, seq<Event>)> {
    if ops == [] then None
    else
      var before, op := History(ops[..|ops| - 1], id), ops[|ops| - 1];
      if op.id != id then before
      else if op.Create? then Some((op.subscriber, OpEvents(op, op.subscriber)))
      else if before.None? then None
      else Some((before.value.0, before.value.1 + OpEvents(op, before.value.0)))
  }

  lemma PlayOneMore(s: Session, events: seq<Event>, e: Event)
    ensures Play(s, events + [e]) == Apply(Play(s, events), e)
  {
    hide Apply;
    assert (events + [e])[..|events|] == events;
  }

  lemma {:induction false} PlayOn(s: Session, a: seq<Event>, b: seq<Event>)
    ensures Play(s, a + b) == Play(Play(s, a), b)
  {
    hide Apply;
    if b == [] {
      assert a + b == a;
    } else {
      var n := |b| - 1;
      var rest, last := b[..n], b[n];
      PlayOn(s, a, rest);
      PlayOneMore(s, a + rest, last);
      PlayOneMore(Play(s, a), rest, last);
      assert b == rest + [last] && a + b == (a + rest) + [last];
      hide *;
    }
  }

  lemma PlayNothing(s: Session)
    ensures Play(s, []) == s
  {}

  lemma NoContainersNoEvents(u: Usage)
    ensures u.containers == [] ==> UsedEvents(u) == []
  {}

  lemma {:induction false} PlayIgnoresClosing(s: Session, events: seq<Event>, closed: bool)
    ensures Play(s.(closed := closed), events) == Play(s, events).(closed := closed)
    ensures Play(s, events).closed == s.closed && Play(s, events).subscriber == s.subscriber
  {
    if events == [] {
    } else {
      PlayIgnoresClosing(s, events[..|events| - 1], closed);
    }
  }

  /** On every run each session is what its own history makes of a new one. */
  lemma {:induction false} SessionFollowsHistory(ops: seq<Op>, id: Id)
    ensures id in Run(ops).sessions <==> History(ops, id).Some?
    ensures id in Run(ops).sessions ==>
              var (subscriber, events) := History(ops, id).value;
              Run(ops).sessions[id].(closed := false) == Play(Opened(subscriber), events)
  {
    if ops == [] {
    } else {
      var before, op := ops[..|ops| - 1], ops[|ops| - 1];
      SessionFollowsHistory(before, id);
      hide Play, OpEvents, Opened;
      if op.id == id {
        if op.Create? {
          NewSessionIsOpen(op.subscriber, OpEvents(op, op.subscriber));
        } else if id in Run(before).sessions {
          var (subscriber, events) := History(before, id).value;
          var session := Run(before).sessions[id];
          NewSessionIsOpen(subscriber, events);
          PlayOn(Opened(subscriber), events, OpEvents(op, subscriber));
          PlayIgnoresClosing(session, OpEvents(op, subscriber), false);
        }
      }
    }
  }

  lemma NewSessionIsOpen(subscriber: string, events: seq<Event>)
    ensures !Play(Opened(subscriber), events).closed && Play(Opened(subscriber), events).subscriber == subscriber
  {
    PlayIgnoresClosing(Opened(subscriber), events, false);
  }

  /** The usage that a record shows is that of its session now. */
  function Shown(s: State, r: Cdr): Option<Totals> {
    if r.session in s.sessions then Some(s.sessions[r.session].usage) else None
  }

  /** The record of a release carries the sums over the whole history up to and with that release. */
  lemma ReleaseRecordsTotals(ops: seq<Op>, id: Id, usages: seq<Usage>)
    requires History(ops, id).Some?
    ensures var after := Run(ops + [Release(id, usages)]);
            var events := History(ops, id).value.1 + OpEvents(Release(id, usages), History(ops, id).value.0);
            |after.records| == |Run(ops).records| + 1 && after.records[..|Run(ops).records|] == Run(ops).records &&
            var r := after.records[|Run(ops).records|];
            r.session == id && r.charge == ChargeSum(events) && Shown(after, r) == Some(UsageSum(events)) &&
            GroupSum(r.groups) == TrackedSum(events) && id in Run(ops).sessions &&
              r.hasEnd == Run(ops).sessions[id].closed
  {
    var release := Release(id, usages);
    assert (ops + [release])[..|ops|] == ops;
    SessionFollowsHistory(ops, id);
    var (subscriber, events) := History(ops, id).value;
    var session := Run(ops).sessions[id];
    NewSessionIsOpen(subscriber, events);
    PlayOn(Opened(subscriber), events, OpEvents(release, subscriber));
    PlayIgnoresClosing(session, OpEvents(release, subscriber), false);
    SessionIsSum(subscriber, events + OpEvents(release, subscriber));
    hide Play, OpEvents, Opened, History, ChargeSum, UsageSum, TrackedSum, GroupSum;
    assert Run(ops + [release]) == Step(Run(ops), release).0;
  }

  /** The history of a session up to and with the release at position `k`. */
  ghost predicate ReleasedAt(ops: seq<Op>, k: nat, id: Id, events: seq<Event>) {
    && k < |ops| && ops[k].Release? && ops[k].id == id && History(ops[..k], id).Some?
    && events == History(ops[..k], id).value.1 + OpEvents(ops[k], History(ops[..k], id).value.0)
  }

  /** The record has the rated sums of that history. */
  predicate CarriesSums(r: Cdr, events: seq<Event>) {
    r.charge == ChargeSum(events) && GroupSum(r.groups) == TrackedSum(events)
  }

  lemma RecordsGrow(ops: seq<Op>)
    requires ops != []
    ensures var before, op := ops[..|ops| - 1], ops[|ops| - 1];
            if op.Release? && History(before, op.id).Some?
            then |Run(ops).records| == |Run(before).records| + 1 &&
              Run(ops).records[..|Run(before).records|] == Run(before).records &&
                 Run(ops).records[|Run(before).records|].session == op.id
            else Run(ops).records == Run(before).records
  {
    SessionFollowsHistory(ops[..|ops| - 1], ops[|ops| - 1].id);
    hide Play, History, OpEvents;
  }

  lemma ReleasedAtLonger(ops: seq<Op>, k: nat, id: Id, events: seq<Event>)
    requires ops != [] && ReleasedAt(ops[..|ops| - 1], k, id, events)
    ensures ReleasedAt(ops, k, id, events)
  {
    hide History, OpEvents;
    assert ops[..|ops| - 1][..k] == ops[..k] && ops[..|ops| - 1][k] == ops[k];
  }

  lemma NewestRecordCarriesItsHistory(ops: seq<Op>) returns (events: seq<Event>)
    requires ops != []
    requires var before, op := ops[..|ops| - 1], ops[|ops| - 1]; op.Release? && History(before, op.id).Some?
    ensures var before, op := ops[..|ops| - 1], ops[|ops| - 1];
            |Run(ops).records| == |Run(before).records| + 1 &&
            ReleasedAt(ops, |ops| - 1, op.id, events) && CarriesSums(Run(ops).records[|Run(before).records|], events)
  {
    var before, op := ops[..|ops| - 1], ops[|ops| - 1];
    ReleaseRecordsTotals(before, op.id, op.usages);
    assert before + [Release(op.id, op.usages)] == ops;
    hide Run, OpEvents, History, ChargeSum, TrackedSum, GroupSum, Shown, UsageSum;
    events := History(before, op.id).value.1 + OpEvents(op, History(before, op.id).value.0);
  }

  /** Every record of a run was written by some release of it, and carries the charge of everything reported
      for its session up to and with that release, whatever came later. */
  lemma {:induction false} EveryRecordCarriesItsHistory(ops: seq<Op>, i: nat) returns (k: nat, events: seq<Event>)
    requires i < |Run(ops).records|
    ensures ReleasedAt(ops, k, Run(ops).records[i].session, events) && CarriesSums(Run(ops).records[i], events)
  {
    assert ops != [];
    RecordsGrow(ops);
    hide Run, CarriesSums, OpEvents, History, ReleasedAt;
    var n := |ops| - 1;
    var before := ops[..n];
    if i < |Run(before).records| {
      assert Run(ops).records[i] == Run(before).records[i];
      k, events := EveryRecordCarriesItsHistory(before, i);
      ReleasedAtLonger(ops, k, Run(ops).records[i].session, events);
    } else {
      k := n;
      events := NewestRecordCarriesItsHistory(ops);
    }
  }

  /** With fresh ids a session's history only grows. */
  lemma {:induction false} HistoryGrows(ops: seq<Op>, k: nat, id: Id)
    requires FreshIds(ops) && k <= |ops| && History(ops[..k], id).Some?
    ensures History(ops, id).Some? && History(ops[..k], id).value.0 == History(ops, id).value.0
    ensures History(ops[..k], id).value.1 <= History(ops, id).value.1
    decreases |ops|
  {
    if k == |ops| {
      assert ops[..k] == ops;
    } else {
      var before := ops[..|ops| - 1];
      assert forall i | 0 <= i <= |before| :: before[..i] == ops[..i];
      assert forall i | 0 <= i < |before| :: before[i] == ops[i];
      assert FreshIds(before);
      HistoryGrows(before, k, id);
      SessionFollowsHistory(before, id);
      hide Run, OpEvents;
    }
  }

  /** So with fresh ids the usage that a record shows at the end is the sum over a history that begins with
      the one its charge is for. */
  lemma ShownUsageExtendsRecord(ops: seq<Op>, i: nat) returns (charged: seq<Event>, all: seq<Event>)
    requires FreshIds(ops) && i < |Run(ops).records|
    ensures CarriesSums(Run(ops).records[i], charged) && charged <= all
    ensures Shown(Run(ops), Run(ops).records[i]) == Some(UsageSum(all))
  {
    var id := Run(ops).records[i].session;
    var k;
    k, charged := EveryRecordCarriesItsHistory(ops, i);
    assert ops[..k + 1][..k] == ops[..k] && ops[..k + 1][k] == ops[k];
    assert History(ops[..k + 1], id).Some? && History(ops[..k + 1], id).value.1 == charged;
    HistoryGrows(ops, k + 1, id);
    SessionFollowsHistory(ops, id);
    all := History(ops, id).value.1;
    SessionIsSum(History(ops, id).value.0, all);
    hide Run, History, OpEvents, Play, CarriesSums, UsageSum, ReleasedAt, FreshIds;
  }

  lemma {:induction false} PlayAddsUsage(s: Session, events: seq<Event>)
    ensures Play(s, events).usage ==
            Totals(s.usage.time + UsageSum(events).time, s.usage.volume + UsageSum(events).volume,
                   s.usage.uplink + UsageSum(events).uplink, s.usage.downlink + UsageSum(events).downlink)
  {
    hide Charge, ChargeOf, HasGroup;
    if events == [] {
    } else {
      PlayAddsUsage(s, events[..|events| - 1]);
    }
  }

  /** Because a record shares its session's usage, a later request for the session changes the usage that it
      shows, by exactly what that request reports, while its charge and groups stay. */
  lemma RecordsShowLaterUsage(s: State, op: Op, i: nat)
    requires i < |s.records| && s.records[i].session in s.sessions
    requires op.Create? ==> op.id !in s.sessions
    ensures var r := s.records[i];
            var s' := Step(s, op).0;
            i < |s'.records| && s'.records[i] == r && r.session in s'.sessions &&
            (Shown(s', r) == Shown(s, r) <==>
             op.id != r.session || UsageSum(OpEvents(op, s.sessions[r.session].subscriber)) == Totals(0, 0, 0, 0))
  {
    var r := s.records[i];
    if op.id == r.session { PlayAddsUsage(s.sessions[r.session], OpEvents(op, s.sessions[r.session].subscriber)); }
    hide Play, UsageSum, OpEvents;
  }

  // ---------- the requests' own account of a session ----------

  /** One container that a request reported for one group. */
  datatype Report = Report(group: int, container: Container)

  /** What the requests of a run say about one session since it was created: whose it is, everything that was
      reported, the groups that were granted a quota, and whether it was released. */
  datatype Account = Account(subscriber: string, reports: seq<Report>, granted: set<int>, released: bool)

  function ReportsOf(u: Usage): seq<Report> {
    seq(|u.containers|, (i: nat) requires i < |u.containers| => Report(u.group, u.containers[i]))
  }

  function AllReports(usages: seq<Usage>): seq<Report> {
    if usages == [] then [] else AllReports(usages[..|usages| - 1]) + ReportsOf(usages[|usages| - 1])
  }

  /** A quota is granted unless a balance is known and is not positive. */
  predicate InCredit(balances: map<string, real>, subscriber: string) {
    subscriber in balances ==> balances[subscriber] > 0.0
  }

  function GrantedTo(usages: seq<Usage>, balances: map<string, real>, subscriber: string): set<int> {
    if InCredit(balances, subscriber) then set u | u in usages :: u.group else {}
  }

  function AccountOf(ops: seq<Op>, id: Id): Option<Account> {
    if ops == [] then None
    else
      var before, op := AccountOf(ops[..|ops| - 1], id), ops[|ops| - 1];
      if op.Create? && op.id == id then
        Some(Account(op.subscriber, [], GrantedTo(op.usages, op.balances, op.subscriber), false))
      else if op.id != id || before.None? then before
      else
        var a := before.value.(reports := before.value.reports + AllReports(op.usages));
        Some(if op.Release? then a.(released := true)
             else a.(granted := a.granted + GrantedTo(op.usages, op.balances, a.subscriber)))
  }

  /** The usage of one group, and of the groups without a rule of their own. */
  function TimeOf(reports: seq<Report>, group: int): int {
    if reports == [] then 0
    else
      var last := reports[|reports| - 1];
      TimeOf(reports[..|reports| - 1], group) + if last.group == group then last.container.time else 0
  }

  function VolumeOf(reports: seq<Report>, group: int): int {
    if reports == [] then 0
    else
      var last := reports[|reports| - 1];
      VolumeOf(reports[..|reports| - 1], group) + if last.group == group then last.container.volume else 0
  }

  function OtherVolume(reports: seq<Report>): int {
    if reports == [] then 0
    else
      var last := reports[|reports| - 1];
      OtherVolume(reports[..|reports| - 1]) + if last.group !in {2, 3, 4, 5} then last.container.volume else 0
  }

  function Megabytes(volume: int): real { volume as real / 1048576.0 }

  /** The price of everything reported, group by group: voice by the minute, all else by the megabyte. */
  function Price(reports: seq<Report>): real {
    0.05 * (TimeOf(reports, 2) as real / 60.0) + 0.02 * Megabytes(VolumeOf(reports, 3)) +
    0.015 * Megabytes(VolumeOf(reports, 4)) + 0.005 * Megabytes(VolumeOf(reports, 5)) +
    0.01 * Megabytes(OtherVolume(reports))
  }

  function Reported(reports: seq<Report>): Totals {
    if reports == [] then Totals(0, 0, 0, 0)
    else
      var before, c := Reported(reports[..|reports| - 1]), reports[|reports| - 1].container;
      Totals(c.time + before.time, c.volume + before.volume, c.uplink + before.uplink, c.downlink + before.downlink)
  }

  /** The uses among the events. */
  function Uses(events: seq<Event>): seq<Report> {
    if events == [] then []
    else
      var before, e := Uses(events[..|events| - 1]), events[|events| - 1];
      if e.Used? then before + [Report(e.group, e.container)] else before
  }

  lemma PriceOneMore(reports: seq<Report>, r: Report)
    ensures Price(reports + [r]) == Price(reports) + ChargeOf(r.group, r.container)
    ensures Reported(reports + [r]) == Plus(Reported(reports), r.container)
  {
    assert (reports + [r])[..|reports|] == reports;
  }

  /** The sums over events are the sums over their uses. */
  lemma {:induction false} SumsAreOverUses(events: seq<Event>)
    ensures ChargeSum(events) == Price(Uses(events)) && UsageSum(events) == Reported(Uses(events))
  {
    if events == [] {
    } else {
      hide ChargeOf, Price, Reported, Plus;
      var e := events[|events| - 1];
      SumsAreOverUses(events[..|events| - 1]);
      if e.Used? { PriceOneMore(Uses(events[..|events| - 1]), Report(e.group, e.container)); }
    }
  }

  lemma UsesOneMore(events: seq<Event>, e: Event)
    ensures Uses(events + [e]) == Uses(events) + if e.Used? then [Report(e.group, e.container)] else []
  {
    assert (events + [e])[..|events|] == events;
  }

  lemma {:induction false} UsesAppend(a: seq<Event>, b: seq<Event>)
    ensures Uses(a + b) == Uses(a) + Uses(b)
  {
    if b == [] {
      assert a + b == a;
    } else {
      hide Uses;
      var rest, last := b[..|b| - 1], b[|b| - 1];
      UsesAppend(a, rest);
      UsesOneMore(a + rest, last);
      UsesOneMore(rest, last);
      assert b == rest + [last] && a + b == (a + rest) + [last];
    }
  }

  lemma {:induction false} UsesOfUsed(u: Usage, n: nat)
    requires n <= |u.containers|
    ensures Uses(UsedEvents(u)[..n]) == ReportsOf(u)[..n]
  {
    if n == 0 {
    } else {
      UsesOfUsed(u, n - 1);
      UsesOneMore(UsedEvents(u)[..n - 1], UsedEvents(u)[n - 1]);
      assert UsedEvents(u)[..n] == UsedEvents(u)[..n - 1] + [UsedEvents(u)[n - 1]];
      assert ReportsOf(u)[..n] == ReportsOf(u)[..n - 1] + [ReportsOf(u)[n - 1]];
    }
  }

  lemma EventsOfUsage(u: Usage, recording: bool, solvent: bool, group: int)
    ensures var events := (if recording then UsedEvents(u) else []) + TrackedEvents(u, solvent);
            && Uses(events) == (if recording then ReportsOf(u) else [])
            && (Tracked(group) in events <==> solvent && u.group == group)
  {
    UsesOfUsed(u, |u.containers|);
    assert UsedEvents(u)[..|u.containers|] == UsedEvents(u) && ReportsOf(u)[..|u.containers|] == ReportsOf(u);
    UsesAppend(if recording then UsedEvents(u) else [], TrackedEvents(u, solvent));
    assert [Tracked(u.group)][..0] == [];
    assert Uses(TrackedEvents(u, solvent)) == [];
    hide Uses, ReportsOf;
    assert Tracked(group) !in UsedEvents(u);
  }

  /** Of a request's events the uses are its reports when it records. */
  lemma {:induction false} UsesOfRequest(usages: seq<Usage>, recording: bool, solvent: bool)
    ensures Uses(Events(usages, recording, solvent)) == if recording then AllReports(usages) else []
  {
    if usages == [] {
    } else {
      var n := |usages| - 1;
      UsesOfRequest(usages[..n], recording, solvent);
      EventsOfUsage(usages[n], recording, solvent, 0);
      UsesAppend(Events(usages[..n], recording, solvent),
                 (if recording then UsedEvents(usages[n]) else []) + TrackedEvents(usages[n], solvent));
      hide Uses, UsedEvents, TrackedEvents, ReportsOf;
    }
  }

  /** The groups tracked are those of the usage reported, when solvent. */
  lemma {:induction false} TracksOfRequest(usages: seq<Usage>, recording: bool, solvent: bool, group: int)
    ensures Tracked(group) in Events(usages, recording, solvent) <==>
            solvent && exists u :: u in usages && u.group == group
  {
    if usages == [] {
    } else {
      var n := |usages| - 1;
      TracksOfRequest(usages[..n], recording, solvent, group);
      EventsOfUsage(usages[n], recording, solvent, group);
      hide UsedEvents, TrackedEvents, Uses, ReportsOf;
      assert usages == usages[..n] + [usages[n]];
    }
  }

  /** The account is what the history of a session comes to. */
  lemma {:induction false} AccountIsHistory(ops: seq<Op>, id: Id, group: int)
    ensures AccountOf(ops, id).Some? <==> History(ops, id).Some?
    ensures AccountOf(ops, id).Some? ==>
            var a, (subscriber, events) := AccountOf(ops, id).value, History(ops, id).value;
            && a.subscriber == subscriber && a.reports == Uses(events)
            && (group in a.granted <==> Tracked(group) in events)
  {
    if ops == [] {
    } else {
      var before, op := ops[..|ops| - 1], ops[|ops| - 1];
      AccountIsHistory(before, id, group);
      hide Uses, Events;
      if op.id == id {
        if op.Create? {
          RequestMatches(op, op.subscriber, group);
        } else if History(before, id).Some? {
          var (subscriber, events) := History(before, id).value;
          RequestMatches(op, subscriber, group);
          UsesAppend(events, OpEvents(op, subscriber));
          hide OpEvents, GrantedTo, AllReports;
        }
      }
    }
  }

  lemma RequestMatches(op: Op, subscriber: string, group: int)
    ensures Uses(OpEvents(op, subscriber)) == if op.Create? then [] else AllReports(op.usages)
    ensures Tracked(group) in OpEvents(op, subscriber) <==>
            !op.Release? && group in GrantedTo(op.usages, op.balances, subscriber)
  {
    hide Uses, Events, AllReports;
    match op
    case Create(_, _, usages, balances) =>
      UsesOfRequest(usages, false, InCredit(balances, subscriber));
      TracksOfRequest(usages, false, InCredit(balances, subscriber), group);
    case Update(_, usages, balances) =>
      UsesOfRequest(usages, true, InCredit(balances, subscriber));
      TracksOfRequest(usages, true, InCredit(balances, subscriber), group);
    case Release(_, usages) =>
      UsesOfRequest(usages, true, false);
      TracksOfRequest(usages, true, false, group);
  }

  lemma {:induction false} ClosedIsReleased(ops: seq<Op>, id: Id)
    requires id in Run(ops).sessions && AccountOf(ops, id).Some?
    ensures Run(ops).sessions[id].closed <==> AccountOf(ops, id).value.released
  {
    var before, op := ops[..|ops| - 1], ops[|ops| - 1];
    hide History;
    assert id in Run(before).sessions <==> AccountOf(before, id).Some? by {
      SessionFollowsHistory(before, id);
      AccountIsHistory(before, id, 0);
    }
    if id in Run(before).sessions {
      ClosedIsReleased(before, id);
      PlayIgnoresClosing(Run(before).sessions[id], OpEvents(op, Run(before).sessions[id].subscriber), false);
    }
    if op.Create? && op.id == id { NewSessionIsOpen(op.subscriber, OpEvents(op, op.subscriber)); }
    hide Play, OpEvents, AllReports, GrantedTo, Opened;
  }

  /** On every run each session is what the requests for it say: its subscriber, its totals, its charge by the
      price list, its groups, and whether it is closed. */
  lemma SessionIsAccount(ops: seq<Op>, id: Id)
    ensures id in Run(ops).sessions <==> AccountOf(ops, id).Some?
    ensures id in Run(ops).sessions ==>
            var s, a := Run(ops).sessions[id], AccountOf(ops, id).value;
            && s.subscriber == a.subscriber && s.usage == Reported(a.reports) && s.charge == Price(a.reports)
            && (forall g :: HasGroup(s.groups, g) <==> g in a.granted) && DistinctGroups(s.groups)
            && (s.closed <==> a.released)
  {
    SessionFollowsHistory(ops, id);
    AccountIsHistory(ops, id, 0);
    if id in Run(ops).sessions {
      var (subscriber, events) := History(ops, id).value;
      SessionIsSum(subscriber, events);
      SumsAreOverUses(events);
      ClosedIsReleased(ops, id);
      NewSessionIsOpen(subscriber, events);
      PlayKeepsGroupsDistinct(Opened(subscriber), events);
      forall g ensures HasGroup(Run(ops).sessions[id].groups, g) <==> g in AccountOf(ops, id).value.granted {
        AccountIsHistory(ops, id, g);
        GroupsAreTracked(Opened(subscriber), events, g);
        hide *;
        assert HasGroup(Opened(subscriber).groups, g) == false by { NoGroupAtFirst(subscriber, g); }
      }
      hide *;
    }
  }

  lemma NoGroupAtFirst(subscriber: string, group: int)
    ensures !HasGroup(Opened(subscriber).groups, group)
  {}

  /** The record has what the requests up to and with the release at position `k` come to: the price of everything
      reported for its session, the groups as they then were, and an end time if there was a release before. */
  ghost predicate PricedAt(ops: seq<Op>, k: nat, r: Cdr) {
    && k < |ops| && ops[k].Release? && ops[k].id == r.session
    && AccountOf(ops[..k], r.session).Some? && AccountOf(ops[..k + 1], r.session).Some?
    && r.charge == Price(AccountOf(ops[..k + 1], r.session).value.reports)
    && r.session in Run(ops[..k + 1]).sessions && r.groups == Run(ops[..k + 1]).sessions[r.session].groups
    && (r.hasEnd <==> AccountOf(ops[..k], r.session).value.released)
  }

  lemma PricedAtLonger(ops: seq<Op>, k: nat, r: Cdr)
    requires ops != [] && PricedAt(ops[..|ops| - 1], k, r)
    ensures PricedAt(ops, k, r)
  {
    hide AccountOf, Run, Price;
    var before := ops[..|ops| - 1];
    assert before[..k] == ops[..k] && before[..k + 1] == ops[..k + 1] && before[k] == ops[k];
  }

  lemma NewestRecordHasGroups(ops: seq<Op>, id: Id, usages: seq<Usage>)
    requires id in Run(ops).sessions
    ensures var all := ops + [Release(id, usages)];
            && |Run(all).records| == |Run(ops).records| + 1 && id in Run(all).sessions
            && Run(all).records[|Run(ops).records|].groups == Run(all).sessions[id].groups
  {
    var all := ops + [Release(id, usages)];
    assert all[..|all| - 1] == ops;
    hide Play, OpEvents;
  }

  lemma AccountAfterRelease(ops: seq<Op>, id: Id, usages: seq<Usage>)
    requires AccountOf(ops, id).Some?
    ensures var a := AccountOf(ops, id).value;
            AccountOf(ops + [Release(id, usages)], id) ==
            Some(a.(reports := a.reports + AllReports(usages), released := true))
  {
    var all := ops + [Release(id, usages)];
    assert all[..|all| - 1] == ops;
    hide AllReports;
  }

  lemma NewestCharge(ops: seq<Op>, id: Id, usages: seq<Usage>)
    requires History(ops, id).Some?
    ensures var all := ops + [Release(id, usages)];
            && |Run(all).records| == |Run(ops).records| + 1 && AccountOf(all, id).Some?
            && var r := Run(all).records[|Run(ops).records|];
               r.session == id && r.charge == Price(AccountOf(all, id).value.reports)
  {
    var release := Release(id, usages);
    var (subscriber, events) := History(ops, id).value;
    AccountIsHistory(ops, id, 0);
    AccountAfterRelease(ops, id, usages);
    ReleaseRecordsTotals(ops, id, usages);
    hide *;
    SumsAreOverUses(events + OpEvents(release, subscriber));
    UsesAppend(events, OpEvents(release, subscriber));
    RequestMatches(release, subscriber, 0);
  }

  lemma NewestRecordIsPriced(ops: seq<Op>, id: Id, usages: seq<Usage>)
    requires History(ops, id).Some?
    ensures var all := ops + [Release(id, usages)];
            |Run(all).records| == |Run(ops).records| + 1 && PricedAt(all, |ops|, Run(all).records[|Run(ops).records|])
  {
    var all := ops + [Release(id, usages)];
    assert all[..|ops|] == ops && all[..|ops| + 1] == all && all[|ops|] == Release(id, usages);
    hide Run, History, AccountOf, Price;
    SessionFollowsHistory(ops, id);
    AccountIsHistory(ops, id, 0);
    NewestCharge(ops, id, usages);
    NewestRecordHasGroups(ops, id, usages);
    ReleaseRecordsTotals(ops, id, usages);
    ClosedIsReleased(ops, id);
  }

  /** Every record was written by a release of its session, and says what the requests up to then come to. */
  lemma {:induction false} RecordsArePriced(ops: seq<Op>, i: nat) returns (k: nat)
    requires i < |Run(ops).records|
    ensures PricedAt(ops, k, Run(ops).records[i])
  {
    assert ops != [];
    RecordsGrow(ops);
    var n := |ops| - 1;
    var before, op := ops[..n], ops[n];
    hide Run, OpEvents, History, PricedAt;
    if i < |Run(before).records| {
      assert Run(ops).records[i] == Run(before).records[i];
      k := RecordsArePriced(before, i);
      PricedAtLonger(ops, k, Run(ops).records[i]);
    } else {
      k := n;
      NewestRecordIsPriced(before, op.id, op.usages);
      assert before + [Release(op.id, op.usages)] == ops;
    }
  }

  // ---------- one group ----------

  lemma {:induction false} OfOneGroup(reports: seq<Report>, group: int)
    requires forall r | r in reports :: r.group == group
    ensures forall g :: TimeOf(reports, g) == if g == group then Reported(reports).time else 0
    ensures forall g :: VolumeOf(reports, g) == if g == group then Reported(reports).volume else 0
    ensures OtherVolume(reports) == if group in {2, 3, 4, 5} then 0 else Reported(reports).volume
  {
    if reports == [] {
    } else {
      OfOneGroup(reports[..|reports| - 1], group);
    }
  }

  /** A session with usage of one group alone: voice costs 0.05 a minute, and the rest by the megabyte. */
  lemma SessionOfOneGroup(ops: seq<Op>, id: Id, group: int)
    requires id in Run(ops).sessions && AccountOf(ops, id).Some?
    requires forall r | r in AccountOf(ops, id).value.reports :: r.group == group
    ensures var s := Run(ops).sessions[id];
            s.charge ==
            if group == 2 then s.usage.time as real / 60.0 * 0.05
            else s.usage.volume as real / 1048576.0 *
                 (match group case 3 => 0.02 case 4 => 0.015 case 5 => 0.005 case _ => 0.01)
  {
    SessionIsAccount(ops, id);
    OfOneGroup(AccountOf(ops, id).value.reports, group);
    hide Run, AccountOf, Reported, TimeOf, VolumeOf, OtherVolume;
  }

  /** The time reported for a group once it was tracked. */
  function TrackedTime(events: seq<Event>, group: int): int {
    if events == [] then 0
    else
      var before, e := events[..|events| - 1], events[|events| - 1];
      TrackedTime(before, group) +
      if e.Used? && e.group == group && Tracked(group) in before then e.container.time else 0
  }

  lemma {:induction false} TrackedIsPriced(events: seq<Event>, group: int)
    ensures TrackedFor(events, group).1 ==
            if group == 2 then TrackedTime(events, group) as real / 60.0 * 0.05
            else TrackedFor(events, group).0 as real / 1048576.0 *
                 (match group case 3 => 0.02 case 4 => 0.015 case 5 => 0.005 case _ => 0.01)
  {
    if events == [] {
    } else {
      TrackedIsPriced(events[..|events| - 1], group);
    }
  }

  /** Each rating group of a session charges for its own used units by the price list. */
  lemma GroupsArePriced(subscriber: string, events: seq<Event>, i: nat)
    requires i < |Play(Opened(subscriber), events).groups|
    ensures var g := Play(Opened(subscriber), events).groups[i];
            g.charge ==
            if g.group == 2 then TrackedTime(events, 2) as real / 60.0 * 0.05
            else g.usedUnits as real / 1048576.0 *
                 (match g.group case 3 => 0.02 case 4 => 0.015 case 5 => 0.005 case _ => 0.01)
  {
    GroupsHoldTrackedUsage(subscriber, events, i);
    TrackedIsPriced(events, Play(Opened(subscriber), events).groups[i].group);
    hide Play, TrackedFor, TrackedTime;
  }

  // ---------- the answers ----------

  /** Who gets an answer and which: a first request always, later ones when the session is known; and each unit
      of it is the group's quota, or its end when a known balance is not positive. */
  lemma AnswersExactly(s: State, op: Op)
    ensures Step(s, op).1.Err? <==> !op.Create? && op.id !in s.sessions
    ensures Step(s, op).1.Err? ==> Step(s, op).0 == s
    ensures Step(s, op).1.Ok? ==> Step(s, op).0.sequence == s.sequence + 1
    ensures Step(s, op).1.Ok? && op.Release? ==> Step(s, op).1.value == []
    ensures Step(s, op).1.Ok? && !op.Release? ==>
            var subscriber := if op.Create? then op.subscriber else s.sessions[op.id].subscriber;
            var units := Step(s, op).1.value;
            && |units| == |op.usages|
            && forall i | 0 <= i < |units| ::
                 && units[i].group == op.usages[i].group
                 && (units[i].QuotaLimitReached? <==> subscriber in op.balances && op.balances[subscriber] <= 0.0)
                 && (units[i].Granted? ==>
                       && units[i].time == 60 * (match units[i].group case 2 => 30 case 5 => 1440 case _ => 60)
                       && units[i].volume == 1048576 *
                          (match units[i].group case 2 => 0 case 3 => 500 case 4 => 200 case 5 => 10 case _ => 100))
  {
    hide Play, OpEvents;
  }

  // ---------- the service ----------

  class CHF {
    var sessions: map<Id, Session>
    var records: seq<Cdr>
    var sequenceNumber: nat

    function View(): State reads this { State(sessions, records, sequenceNumber) }

    constructor ()
      ensures View() == Empty()
    {
      sessions, records, sequenceNumber := map[], [], 0;
    }

    method GetNextSequence() returns (n: nat)
      modifies this`sequenceNumber
      ensures n == sequenceNumber == old(sequenceNumber) + 1
    {
      sequenceNumber := sequenceNumber + 1;
      n := sequenceNumber;
    }

    method ProcessQuotaRequest(session: Session, u: Usage, balances: map<string, real>)
      returns (after: Session, grant: Grant)
      ensures var solvent := Balance(balances, session.subscriber) > 0.0;
              && after == Play(session, TrackedEvents(u, solvent))
              && grant == if solvent then Quota(u.group) else QuotaLimitReached(u.group)
    {
      after := session;
      if Balance(balances, session.subscriber) <= 0.0 {
        return session, QuotaLimitReached(u.group);
      }
      var i := 0;
      while i < |session.groups| && session.groups[i].group != u.group
        invariant 0 <= i <= |session.groups|
        invariant forall j | 0 <= j < i :: session.groups[j].group != u.group
      {
        i := i + 1;
      }
      if i == |session.groups| { after := session.(groups := session.groups + [Group(u.group, 0, 0.0)]); }
      assert [Tracked(u.group)][..0] == [];
      assert Play(session, [Tracked(u.group)]) == Apply(session, Tracked(u.group));
      grant := Quota(u.group);
    }

    method RecordUsage(session: Session, u: Usage) returns (after: Session)
      ensures after == Play(session, UsedEvents(u))
    {
      hide ChargeOf, HasGroup;
      after := session;
      for i := 0 to |u.containers|
        invariant after == Play(session, UsedEvents(u)[..i])
      {
        var c := u.containers[i];
        var charge := ChargeOf(u.group, c);
        assert UsedEvents(u)[..i + 1][..i] == UsedEvents(u)[..i];
        after := after.(usage := Totals(after.usage.time + c.time, after.usage.volume + c.volume,
                                        after.usage.uplink + c.uplink, after.usage.downlink + c.downlink),
                        charge := after.charge + charge,
                        groups := Charge(after.groups, u.group, c.volume, charge));
      }
      assert UsedEvents(u)[..|u.containers|] == UsedEvents(u);
    }

    /** The loop over a request's usage: recording if asked, granting if there is a balance to look at. */
    method ProcessUsages(session: Session, usages: seq<Usage>, recording: bool, balances: map<string, real>)
      returns (after: Session, grants: seq<Grant>)
      ensures var solvent := Balance(balances, session.subscriber) > 0.0;
              after == Play(session, Events(usages, recording, solvent)) && grants == Grants(usages, solvent)
    {
      hide Play, Quota, UsedEvents, TrackedEvents;
      ghost var solvent := Balance(balances, session.subscriber) > 0.0;
      after, grants := session, [];
      PlayNothing(session);
      for i := 0 to |usages|
        invariant after == Play(session, Events(usages[..i], recording, solvent))
        invariant after.subscriber == session.subscriber
        invariant grants == Grants(usages[..i], solvent)
      {
        assert usages[..i + 1][..i] == usages[..i];
        ghost var added := (if recording then UsedEvents(usages[i]) else []) + TrackedEvents(usages[i], solvent);
        PlayOn(session, Events(usages[..i], recording, solvent), added);
        PlayIgnoresClosing(after, added, false);
        var grant;
        after, grant := ProcessUsage(after, usages[i], recording, balances);
        grants := grants + [grant];
      }
      assert usages[..|usages|] == usages;
    }

    method ProcessUsage(session: Session, u: Usage, recording: bool, balances: map<string, real>)
      returns (after: Session, grant: Grant)
      ensures var solvent := Balance(balances, session.subscriber) > 0.0;
              && after == Play(session, (if recording then UsedEvents(u) else []) + TrackedEvents(u, solvent))
              && grant == if solvent then Quota(u.group) else QuotaLimitReached(u.group)
    {
      hide Play, Quota, UsedEvents, TrackedEvents;
      ghost var used := if recording then UsedEvents(u) else [];
      after := session;
      if recording && u.containers != [] { after := RecordUsage(after, u); }
      PlayNothing(session);
      NoContainersNoEvents(u);
      PlayIgnoresClosing(session, used, false);
      PlayOn(session, used, TrackedEvents(u, Balance(balances, session.subscriber) > 0.0));
      after, grant := ProcessQuotaRequest(after, u, balances);
    }

    /** The loop over a final request's usage. */
    method RecordAll(session: Session, usages: seq<Usage>) returns (after: Session)
      ensures after == Play(session, Events(usages, true, false))
    {
      hide Play;
      after := session;
      PlayNothing(session);
      for i := 0 to |usages|
        invariant after == Play(session, Events(usages[..i], true, false))
      {
        assert usages[..i + 1][..i] == usages[..i];
        PlayOn(session, Events(usages[..i], true, false), UsedEvents(usages[i]));
        assert UsedEvents(usages[i]) + TrackedEvents(usages[i], false) == UsedEvents(usages[i]);
        PlayNothing(after);
        NoContainersNoEvents(usages[i]);
        if usages[i].containers != [] { after := RecordUsage(after, usages[i]); }
      }
      assert usages[..|usages|] == usages;
    }

    method CreateChargingSession(id: Id, subscriber: string, usages: seq<Usage>, balances: map<string, real>)
      returns (grants: seq<Grant>)
      modifies this
      ensures (View(), Ok(grants)) == Step(old(View()), Create(id, subscriber, usages, balances))
    {
      hide Play;
      var session;
      session, grants := ProcessUsages(Session(subscriber, Totals(0, 0, 0, 0), 0.0, [], false), usages, false,
                                       balances);
      sessions := sessions[id := session];
      var _ := GetNextSequence();
    }

    method UpdateChargingSession(id: Id, usages: seq<Usage>, balances: map<string, real>)
      returns (answer: Result<seq<Grant>, Failure>)
      modifies this
      ensures (View(), answer) == Step(old(View()), Update(id, usages, balances))
    {
      hide Play;
      if id !in sessions { return Err(SessionNotFound); }
      var session, grants := ProcessUsages(sessions[id], usages, true, balances);
      sessions := sessions[id := session];
      var _ := GetNextSequence();
      answer := Ok(grants);
    }

    method ReleaseChargingSession(id: Id, usages: seq<Usage>) returns (answer: Result<seq<Grant>, Failure>)
      modifies this
      ensures (View(), answer) == Step(old(View()), Release(id, usages))
    {
      hide Play;
      if id !in sessions { return Err(SessionNotFound); }
      var session := RecordAll(sessions[id], usages);
      records := records + [Cdr(id, session.charge, session.groups, session.closed)];
      sessions := sessions[id := session.(closed := true)];
      var _ := GetNextSequence();
      answer := Ok([]);
    }
  }
}
