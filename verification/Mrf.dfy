/** The media resource function's RTP port pool and its holders
    (5G_Emulator_API/core_network/mrf.py). An optional text that is absent is the empty string. */
module Mrf {
  import opened Common

  type Port = nat
  type Id = nat

  datatype ConferenceState = Pending | Active | Locked | Terminated

  /** `streams` holds the local port of each media stream, when it has one. */
  datatype Member = Member(isModerator: bool, canSpeak: bool, endConferenceOnExit: bool, streams: seq<Option<Port>>)

  datatype Conference = Conference(
    state: ConferenceState, maxMembers: int, pin: string, moderatorPin: string, muteOnEntry: bool,
    members: map<Id, Member>)

  /** Who has a port that is not in the pool. Nobody ever gives back a lost one. */
  datatype Holder = Stream(conference: Id, member: Id, index: nat) | Input(session: Id) | Lost

  datatype State = State(
    free: set<Port>, conferences: map<Id, Conference>, transcoders: map<Id, Port>, ledger: map<Port, Holder>)

  datatype Outcome = Done | NotFound | ConferenceLocked | Gone | Full | InvalidPin | TooMany | UnsupportedCodec
    | Exhausted

  const MAX_CONFERENCES := 100
  const CODECS := {"PCMU/8000", "PCMA/8000", "G729/8000", "AMR/8000", "AMR-WB/16000"}

  predicate Supported(codec: string) { codec in CODECS }

  // ---------- the pool as an ascending list ----------

  function Elements(pool: seq<Port>): set<Port> { set p | p in pool }

  ghost predicate Ascending(pool: seq<Port>) {
    forall i, j | 0 <= i < j < |pool| :: pool[i] < pool[j]
  }

  function Insert(pool: seq<Port>, port: Port): seq<Port> {
    if pool == [] then [port]
    else if pool[|pool| - 1] <= port then pool + [port]
    else Insert(pool[..|pool| - 1], port) + [pool[|pool| - 1]]
  }

  function Sorted(pool: seq<Port>): seq<Port> {
    if pool == [] then [] else Insert(Sorted(pool[..|pool| - 1]), pool[|pool| - 1])
  }

  predicate LowerBound(least: Port, ports: set<Port>) { forall p | p in ports :: least <= p }

  /** The least port of a non-empty set. */
  function Least(ports: set<Port>): (least: Port)
    requires ports != {}
    ensures least in ports && forall p | p in ports :: least <= p
  {
    LeastExists(ports);
    var least :| least in ports && LowerBound(least, ports);
    least
  }

  lemma {:induction false} LeastExists(ports: set<Port>)
    requires ports != {}
    ensures exists least :: least in ports && LowerBound(least, ports)
  {
    var some :| some in ports;
    if LowerBound(some, ports) {
    } else {
      var below := set p | p in ports && p < some;
      var p :| p in ports && p < some;
      assert p in below && some !in below && below < ports;
      LeastExists(below);
      var least :| least in below && LowerBound(least, below);
      forall q | q in ports ensures least <= q {
        assert q < some ==> q in below;
      }
      assert LowerBound(least, ports);
    }
  }

  lemma {:induction false} InsertKeepsAscending(pool: seq<Port>, port: Port)
    requires Ascending(pool) && port !in pool
    ensures Ascending(Insert(pool, port))
    ensures forall p :: p in Insert(pool, port) <==> p in pool || p == port
  {
    if pool == [] || port >= pool[|pool| - 1] {
    } else {
      InsertKeepsAscending(pool[..|pool| - 1], port);
      assert forall p :: p in pool <==> p in pool[..|pool| - 1] || p == pool[|pool| - 1];
      var inserted := Insert(pool[..|pool| - 1], port);
      forall i | 0 <= i < |inserted| ensures inserted[i] < pool[|pool| - 1] {
        assert inserted[i] in inserted;
      }
    }
  }

  lemma {:induction false} SortedIsIdentity(pool: seq<Port>)
    requires Ascending(pool)
    ensures Sorted(pool) == pool
  {
    if pool == [] {
    } else {
      SortedIsIdentity(pool[..|pool| - 1]);
    }
  }

  /** Appending and sorting puts the port in its place. */
  lemma SortedAppend(pool: seq<Port>, port: Port)
    requires Ascending(pool) && port !in pool
    ensures Ascending(Sorted(pool + [port]))
    ensures Elements(Sorted(pool + [port])) == Elements(pool) + {port}
  {
    assert (pool + [port])[..|pool|] == pool;
    SortedIsIdentity(pool);
    InsertKeepsAscending(pool, port);
  }

  lemma {:induction false} AscendingCount(pool: seq<Port>)
    requires Ascending(pool)
    ensures |Elements(pool)| == |pool|
  {
    if pool == [] {
    } else {
      var n := |pool| - 1;
      AscendingCount(pool[..n]);
      assert Elements(pool) == Elements(pool[..n]) + {pool[n]};
    }
  }

  /** An ascending list is determined by its elements, so the set says all there is to say of the pool. */
  lemma {:induction false} AscendingIsUnique(p: seq<Port>, q: seq<Port>)
    requires Ascending(p) && Ascending(q) && Elements(p) == Elements(q)
    ensures p == q
  {
    AscendingCount(p);
    AscendingCount(q);
    if p == [] {
    } else {
      var n := |p| - 1;
      assert p[n] in Elements(q) && q[n] in Elements(p);
      assert p[n] == q[n];
      assert Elements(p[..n]) == Elements(p) - {p[n]};
      assert Elements(q[..n]) == Elements(q) - {q[n]};
      AscendingIsUnique(p[..n], q[..n]);
    }
  }

  function InitialPool(): (pool: seq<Port>)
    ensures Ascending(pool) && |pool| == 1000
    ensures forall p | p in pool :: p % 2 == 0 && 30000 <= p < 32000
  {
    seq(1000, (i: nat) requires i < 1000 => 30000 + 2 * i)
  }

  function Initial(): State { State(Elements(InitialPool()), map[], map[], map[]) }

  // ---------- the operations ----------

  function PortsOf(streams: seq<Option<Port>>): set<Port> {
    set i | 0 <= i < |streams| && streams[i].Some? :: streams[i].value
  }

  function PortsIn(members: map<Id, Member>): set<Port> {
    set m, p | m in members && p in PortsOf(members[m].streams) :: p
  }

  function WithConference(s: State, id: Id, maxMembers: int, pin: string, moderatorPin: string,
      muteOnEntry: bool): (State, Outcome)
  {
    if |s.conferences| >= MAX_CONFERENCES then (s, TooMany)
    else (s.(conferences := s.conferences[id := Conference(Active, maxMembers, pin, moderatorPin, muteOnEntry, map[])]),
          Done)
  }

  function SetState(s: State, id: Id, state: ConferenceState): (State, Outcome) {
    if id !in s.conferences then (s, NotFound)
    else (s.(conferences := s.conferences[id := s.conferences[id].(state := state)]), Done)
  }

  /** Why a conference turns a caller away, before it looks for a port. */
  function Refusal(conf: Conference, pin: string): Option<Outcome> {
    if conf.state == Locked then Some(ConferenceLocked)
    else if conf.state == Terminated then Some(Gone)
    else if |conf.members| >= conf.maxMembers then Some(Full)
    else if conf.pin != "" && pin != conf.pin && (conf.moderatorPin == "" || pin != conf.moderatorPin)
      then Some(InvalidPin)
    else None
  }

  /** Who is let in: a conference that is neither locked nor terminated, with room, takes anyone if it has no
      PIN, and otherwise whoever knows its PIN or its moderator PIN, if it has one. */
  lemma AdmittedExactly(conf: Conference, pin: string)
    ensures Refusal(conf, pin).None? <==>
            && conf.state in {Pending, Active} && |conf.members| < conf.maxMembers
            && (conf.pin == "" || pin == conf.pin || pin == conf.moderatorPin != "")
    ensures Refusal(conf, pin) == Some(InvalidPin) <==>
            && conf.state in {Pending, Active} && |conf.members| < conf.maxMembers
            && conf.pin != "" && pin != conf.pin && (conf.moderatorPin == "" || pin != conf.moderatorPin)
    ensures Refusal(conf, pin) == Some(Full) <==> conf.state in {Pending, Active} && |conf.members| >= conf.maxMembers
  {}

  /** Who is let in as a moderator: one sent as such, or one who needed the moderator PIN. A conference without
      a PIN makes no one a moderator by its moderator PIN, nor does one whose two PINs are the same. */
  lemma ModeratorExactly(conf: Conference, isModerator: bool, pin: string, port: Port)
    requires Refusal(conf, pin).None?
    ensures Joining(conf, isModerator, pin, port).isModerator <==>
            isModerator || (conf.pin != "" && conf.pin != conf.moderatorPin && pin == conf.moderatorPin)
  {}

  /** A caller who comes in by the moderator PIN alone is a moderator. */
  function Joining(conf: Conference, isModerator: bool, pin: string, port: Port): Member {
    Member(isModerator || (conf.pin != "" && pin != conf.pin && pin == conf.moderatorPin != ""), !conf.muteOnEntry,
           false, [Some(port)])
  }

  function WithMember(s: State, id: Id, member: Id, isModerator: bool, pin: string): (State, Outcome) {
    if id !in s.conferences then (s, NotFound) else
    var conf := s.conferences[id];
    var refusal := Refusal(conf, pin);
    if refusal.Some? then (s, refusal.value)
    else if s.free == {} then (s, Exhausted)
    else
      var port := Least(s.free);
      (State(s.free - {port},
             s.conferences[id := conf.(members := conf.members[member := Joining(conf, isModerator, pin, port)])],
             s.transcoders, s.ledger[port := Stream(id, member, 0)]), Done)
  }

  function Destroy(s: State, id: Id): (State, Outcome) {
    if id !in s.conferences then (s, NotFound) else
    var ports := PortsIn(s.conferences[id].members);
    (State(s.free + ports, s.conferences - {id}, s.transcoders, s.ledger - ports), Done)
  }

  /** The member's ports go back first; if that ends the conference, they go back again with the rest. */
  function WithoutMember(s: State, id: Id, member: Id): (State, Outcome) {
    if id !in s.conferences || member !in s.conferences[id].members then (s, NotFound) else
    var conf := s.conferences[id];
    if conf.members[member].endConferenceOnExit then Destroy(s, id) else
    var ports := PortsOf(conf.members[member].streams);
    (State(s.free + ports, s.conferences[id := conf.(members := conf.members - {member})],
           s.transcoders, s.ledger - ports), Done)
  }

  /** Two ports are taken and only the first is recorded. With one port left, that one is taken and the
      call fails. */
  function CreateTranscoding(s: State, session: Id, input: string, output: string): (State, Outcome) {
    if !Supported(input) || !Supported(output) then (s, UnsupportedCodec)
    else if s.free == {} then (s, Exhausted)
    else
      var first := Least(s.free);
      if s.free == {first} then (s.(free := {}, ledger := s.ledger[first := Lost]), Exhausted)
      else
        var second := Least(s.free - {first});
        (s.(free := s.free - {first} - {second}, transcoders := s.transcoders[session := first],
            ledger := s.ledger[first := Input(session)][second := Lost]), Done)
  }

  function DeleteTranscoding(s: State, session: Id): (State, Outcome) {
    if session !in s.transcoders then (s, NotFound) else
    var port := s.transcoders[session];
    (s.(free := s.free + {port}, transcoders := s.transcoders - {session}, ledger := s.ledger - {port}), Done)
  }

  // ---------- conservation ----------

  predicate Holds(conferences: map<Id, Conference>, c: Id, m: Id, i: nat, p: Port) {
    && c in conferences && m in conferences[c].members
    && i < |conferences[c].members[m].streams| && conferences[c].members[m].streams[i] == Some(p)
  }

  /** The ledger is the truth: a stream or transcoder has a port exactly when the ledger says so. */
  ghost predicate LedgerAgrees(conferences: map<Id, Conference>, transcoders: map<Id, Port>,
      ledger: map<Port, Holder>)
  {
    && (forall c, m, i, p | Holds(conferences, c, m, i, p) :: p in ledger && ledger[p] == Stream(c, m, i))
    && (forall t | t in transcoders :: transcoders[t] in ledger && ledger[transcoders[t]] == Input(t))
    && (forall p | p in ledger && ledger[p].Stream? ::
        Holds(conferences, ledger[p].conference, ledger[p].member, ledger[p].index, p))
    && (forall p | p in ledger && ledger[p].Input? ::
        ledger[p].session in transcoders && transcoders[ledger[p].session] == p)
  }

  ghost predicate Consistent(s: State) {
    s.free !! s.ledger.Keys && LedgerAgrees(s.conferences, s.transcoders, s.ledger)
  }

  function AllPorts(s: State): set<Port> { s.free + s.ledger.Keys }

  function LostPorts(ledger: map<Port, Holder>): set<Port> { set p | p in ledger && ledger[p].Lost? }

  /** A step keeps all ports accounted for and loses just the ports of `lost`. */
  ghost predicate Conserved(s: State, s': State, lost: set<Port>) {
    Consistent(s') && AllPorts(s') == AllPorts(s) && LostPorts(s'.ledger) == LostPorts(s.ledger) + lost &&
      lost !! LostPorts(s.ledger)
  }

  lemma HoldsAfterJoin(conferences: map<Id, Conference>, id: Id, member: Id, joined: Member, port: Port, c: Id, m: Id,
      i: nat, p: Port)
    requires id in conferences && member !in conferences[id].members && joined.streams == [Some(port)]
    ensures var after := conferences[id := conferences[id].(members := conferences[id].members[member := joined])];
            Holds(after, c, m, i, p) <==>
              if c == id && m == member then i == 0 && p == port else Holds(conferences, c, m, i, p)
  {}

  lemma LedgerAfterJoin(s: State, id: Id, member: Id, joined: Member, port: Port)
    requires LedgerAgrees(s.conferences, s.transcoders, s.ledger) && port !in s.ledger
    requires id in s.conferences && member !in s.conferences[id].members && joined.streams == [Some(port)]
    ensures var members := s.conferences[id].members[member := joined];
            var after := s.conferences[id := s.conferences[id].(members := members)];
            LedgerAgrees(after, s.transcoders, s.ledger[port := Stream(id, member, 0)])
  {
    var after := s.conferences[id := s.conferences[id].(members := s.conferences[id].members[member := joined])];
    forall c, m, i, p ensures Holds(after, c, m, i, p) <==>
      if c == id && m == member then i == 0 && p == port else Holds(s.conferences, c, m, i, p)
    {
      HoldsAfterJoin(s.conferences, id, member, joined, port, c, m, i, p);
    }
    assert forall p | p in s.ledger && s.ledger[p].Stream? ::
      !(s.ledger[p].conference == id && s.ledger[p].member == member) by {
      forall p | p in s.ledger && s.ledger[p].Stream?
        ensures !(s.ledger[p].conference == id && s.ledger[p].member == member) {
        assert Holds(s.conferences, s.ledger[p].conference, s.ledger[p].member, s.ledger[p].index, p);
      }
    }
    hide Holds;
  }

  lemma AddMemberConserves(s: State, id: Id, member: Id, isModerator: bool, pin: string)
    requires Consistent(s) && (id in s.conferences ==> member !in s.conferences[id].members)
    ensures Conserved(s, WithMember(s, id, member, isModerator, pin).0, {})
  {
    hide LedgerAgrees, Refusal;
    if id in s.conferences && Refusal(s.conferences[id], pin).None? && s.free != {} {
      var port := Least(s.free);
      LedgerAfterJoin(s, id, member, Joining(s.conferences[id], isModerator, pin, port), port);
      assert LostPorts(s.ledger[port := Stream(id, member, 0)]) == LostPorts(s.ledger);
      hide Least, Joining, LostPorts;
    }
  }

  lemma PortsInAreHeld(s: State, id: Id, p: Port)
    requires Consistent(s) && id in s.conferences
    ensures p in PortsIn(s.conferences[id].members) <==>
            p in s.ledger && s.ledger[p].Stream? && s.ledger[p].conference == id
  {
    if p in PortsIn(s.conferences[id].members) {
      var m :| m in s.conferences[id].members && p in PortsOf(s.conferences[id].members[m].streams);
      PortsOfAreHeld(s, id, m, p);
    }
    if p in s.ledger && s.ledger[p].Stream? && s.ledger[p].conference == id {
      PortsOfAreHeld(s, id, s.ledger[p].member, p);
    }
  }

  lemma PortsOfAreHeld(s: State, id: Id, m: Id, p: Port)
    requires Consistent(s) && id in s.conferences && m in s.conferences[id].members
    ensures p in PortsOf(s.conferences[id].members[m].streams) <==>
            p in s.ledger && s.ledger[p].Stream? && s.ledger[p].conference == id && s.ledger[p].member == m
  {
    var streams := s.conferences[id].members[m].streams;
    if p in PortsOf(streams) {
      var i :| 0 <= i < |streams| && streams[i] == Some(p);
      assert Holds(s.conferences, id, m, i, p);
    }
    if p in s.ledger && s.ledger[p].Stream? && s.ledger[p].conference == id && s.ledger[p].member == m {
      assert Holds(s.conferences, id, m, s.ledger[p].index, p);
      assert streams[s.ledger[p].index] == Some(p);
    }
  }

  lemma DestroyConserves(s: State, id: Id)
    requires Consistent(s)
    ensures Conserved(s, Destroy(s, id).0, {})
  {
    if id in s.conferences {
      var s' := Destroy(s, id).0;
      forall p ensures p in PortsIn(s.conferences[id].members) <==>
        p in s.ledger && s.ledger[p].Stream? && s.ledger[p].conference == id {
        PortsInAreHeld(s, id, p);
      }
      hide PortsIn;
      forall c, m, i, p | Holds(s'.conferences, c, m, i, p) ensures p in s'.ledger && s'.ledger[p] == Stream(c, m, i) {
        assert Holds(s.conferences, c, m, i, p);
      }
      forall p | p in s'.ledger && s'.ledger[p].Stream?
        ensures Holds(s'.conferences, s'.ledger[p].conference, s'.ledger[p].member, s'.ledger[p].index, p)
      {
        assert Holds(s.conferences, s.ledger[p].conference, s.ledger[p].member, s.ledger[p].index, p);
      }
    }
  }

  lemma RemoveMemberConserves(s: State, id: Id, member: Id)
    requires Consistent(s)
    ensures Conserved(s, WithoutMember(s, id, member).0, {})
  {
    if id in s.conferences && member in s.conferences[id].members {
      if s.conferences[id].members[member].endConferenceOnExit {
        DestroyConserves(s, id);
      } else {
        var s' := WithoutMember(s, id, member).0;
        var streams := s.conferences[id].members[member].streams;
        forall p ensures p in PortsOf(streams) <==>
            p in s.ledger && s.ledger[p].Stream? && s.ledger[p].conference == id && s.ledger[p].member == member {
          PortsOfAreHeld(s, id, member, p);
        }
        hide PortsOf;
        forall c, m, i, p | Holds(s'.conferences, c, m, i, p)
          ensures p in s'.ledger && s'.ledger[p] == Stream(c, m, i) {
          assert Holds(s.conferences, c, m, i, p);
        }
        forall p | p in s'.ledger && s'.ledger[p].Stream?
          ensures Holds(s'.conferences, s'.ledger[p].conference, s'.ledger[p].member, s'.ledger[p].index, p)
        {
          assert Holds(s.conferences, s.ledger[p].conference, s.ledger[p].member, s.ledger[p].index, p);
        }
      }
    }
  }

  lemma LastPortIsLost(s: State, port: Port)
    requires Consistent(s) && s.free == {port}
    ensures var s' := s.(free := {}, ledger := s.ledger[port := Lost]);
            Consistent(s') && AllPorts(s') == AllPorts(s) && LostPorts(s'.ledger) == LostPorts(s.ledger) + {port}
  {
    hide Holds;
  }

  lemma LostGrows(ledger: map<Port, Holder>, session: Id, first: Port, second: Port)
    requires first !in ledger && second !in ledger && first != second
    ensures LostPorts(ledger[first := Input(session)][second := Lost]) == LostPorts(ledger) + {second}
  {}

  lemma SecondPortIsLost(s: State, session: Id, first: Port, second: Port)
    requires Consistent(s) && session !in s.transcoders && first in s.free && second in s.free && first != second
    ensures var s' := State(s.free - {first} - {second}, s.conferences, s.transcoders[session := first],
                            s.ledger[first := Input(session)][second := Lost]);
            Consistent(s') && AllPorts(s') == AllPorts(s) && LostPorts(s'.ledger) == LostPorts(s.ledger) + {second}
  {
    hide Holds;
    LostGrows(s.ledger, session, first, second);
    hide LostPorts;
  }

  /** The port that a transcoding request loses: the second it takes, or the last there is. */
  function LostBy(s: State, input: string, output: string): set<Port> {
    if !Supported(input) || !Supported(output) || s.free == {} then {}
    else
      var first := Least(s.free);
      {if s.free == {first} then first else Least(s.free - {first})}
  }

  lemma CreateTranscodingConserves(s: State, session: Id, input: string, output: string)
    requires Consistent(s) && session !in s.transcoders
    ensures Conserved(s, CreateTranscoding(s, session, input, output).0, LostBy(s, input, output))
    ensures LostBy(s, input, output) == {} <==> !Supported(input) || !Supported(output) || s.free == {}
  {
    if Supported(input) && Supported(output) && s.free != {} {
      hide Holds, LedgerAgrees, AllPorts, Supported;
      var first := Least(s.free);
      if s.free == {first} {
        LastPortIsLost(s, first);
      } else {
        SecondPortIsLost(s, session, first, Least(s.free - {first}));
      }
    }
  }

  lemma DeleteTranscodingConserves(s: State, session: Id)
    requires Consistent(s)
    ensures Conserved(s, DeleteTranscoding(s, session).0, {})
  {
    hide Holds;
  }

  lemma ConferenceSettingsConserve(s: State, id: Id, conf: Conference)
    requires Consistent(s) && conf.members == if id in s.conferences then s.conferences[id].members else map[]
    ensures Conserved(s, s.(conferences := s.conferences[id := conf]), {})
  {
    var after := s.conferences[id := conf];
    assert forall c, m, i, p :: Holds(after, c, m, i, p) <==> Holds(s.conferences, c, m, i, p);
  }

  // ---------- whole runs ----------

  datatype Op =
    | CreateConferenceOp(id: Id, maxMembers: int, pin: string, moderatorPin: string, muteOnEntry: bool)
    | SetStateOp(id: Id, state: ConferenceState)
    | DestroyOp(id: Id)
    | AddMemberOp(id: Id, member: Id, isModerator: bool, pin: string)
    | RemoveMemberOp(id: Id, member: Id)
    | CreateTranscodingOp(id: Id, input: string, output: string)
    | DeleteTranscodingOp(id: Id)

  function Step(s: State, op: Op): (State, Outcome) {
    match op
    case CreateConferenceOp(id, max, pin, moderatorPin, mute) => WithConference(s, id, max, pin, moderatorPin, mute)
    case SetStateOp(id, state) => SetState(s, id, state)
    case DestroyOp(id) => Destroy(s, id)
    case AddMemberOp(id, member, isModerator, pin) => WithMember(s, id, member, isModerator, pin)
    case RemoveMemberOp(id, member) => WithoutMember(s, id, member)
    case CreateTranscodingOp(id, input, output) => CreateTranscoding(s, id, input, output)
    case DeleteTranscodingOp(id) => DeleteTranscoding(s, id)
  }

  /** The random id of a new conference, member or session is not in use. */
  predicate FreshId(s: State, op: Op) {
    match op
    case CreateConferenceOp(id, _, _, _, _) => id !in s.conferences
    case AddMemberOp(id, member, _, _) => id in s.conferences ==> member !in s.conferences[id].members
    case CreateTranscodingOp(id, _, _) => id !in s.transcoders
    case _ => true
  }

  /** A transcoding request that reaches the pool while it has a port. */
  predicate LosesPort(s: State, op: Op) {
    op.CreateTranscodingOp? && Supported(op.input) && Supported(op.output) && s.free != {}
  }

  function Run(s: State, ops: seq<Op>): State
    decreases |ops|
  {
    if ops == [] then s else Run(Step(s, ops[0]).0, ops[1..])
  }

  ghost predicate FreshIds(s: State, ops: seq<Op>)
    decreases |ops|
  {
    ops != [] ==> FreshId(s, ops[0]) && FreshIds(Step(s, ops[0]).0, ops[1..])
  }

  function Losses(s: State, ops: seq<Op>): nat
    decreases |ops|
  {
    if ops == [] then 0 else (if LosesPort(s, ops[0]) then 1 else 0) + Losses(Step(s, ops[0]).0, ops[1..])
  }

  function LostInStep(s: State, op: Op): set<Port> {
    if op.CreateTranscodingOp? then LostBy(s, op.input, op.output) else {}
  }

  lemma NothingConserves(s: State)
    requires Consistent(s)
    ensures Conserved(s, s, {})
  {
    hide Consistent;
  }

  lemma StepConserves(s: State, op: Op)
    requires Consistent(s) && FreshId(s, op)
    ensures Conserved(s, Step(s, op).0, LostInStep(s, op))
  {
    NothingConserves(s);
    hide Consistent, Conserved, LostBy, WithMember, Destroy, WithoutMember, CreateTranscoding, DeleteTranscoding;
    match op
    case CreateConferenceOp(id, max, pin, moderatorPin, mute) =>
      ConferenceSettingsConserve(s, id, Conference(Active, max, pin, moderatorPin, mute, map[]));
    case SetStateOp(id, state) =>
      if id in s.conferences { ConferenceSettingsConserve(s, id, s.conferences[id].(state := state)); }
    case DestroyOp(id) => DestroyConserves(s, id);
    case AddMemberOp(id, member, isModerator, pin) => AddMemberConserves(s, id, member, isModerator, pin);
    case RemoveMemberOp(id, member) => RemoveMemberConserves(s, id, member);
    case CreateTranscodingOp(id, input, output) => CreateTranscodingConserves(s, id, input, output);
    case DeleteTranscodingOp(id) => DeleteTranscodingConserves(s, id);
  }

  lemma StepCountsLoss(s: State, op: Op)
    requires Conserved(s, Step(s, op).0, LostInStep(s, op))
    ensures |LostPorts(Step(s, op).0.ledger)| == |LostPorts(s.ledger)| + if LosesPort(s, op) then 1 else 0
  {
    var lost := LostInStep(s, op);
    assert |lost| == if LosesPort(s, op) then 1 else 0;
    hide Consistent, AllPorts, LostPorts, LostInStep, LostBy, Step, LosesPort;
    assert |LostPorts(s.ledger) + lost| == |LostPorts(s.ledger)| + |lost|;
  }

  /** Ports are conserved on every run, and each transcoding request that finds a port loses exactly one
      for good, whether it succeeds or not. */
  lemma {:induction false} RunConserves(s: State, ops: seq<Op>)
    requires Consistent(s) && FreshIds(s, ops)
    ensures Consistent(Run(s, ops)) && AllPorts(Run(s, ops)) == AllPorts(s)
    ensures |LostPorts(Run(s, ops).ledger)| == |LostPorts(s.ledger)| + Losses(s, ops)
    decreases |ops|
  {
    if ops == [] {
    } else {
      StepConserves(s, ops[0]);
      StepCountsLoss(s, ops[0]);
      assert Consistent(Step(s, ops[0]).0) && AllPorts(Step(s, ops[0]).0) == AllPorts(s);
      hide Consistent, AllPorts, LostPorts, LostInStep, Conserved, Step, LosesPort;
      RunConserves(Step(s, ops[0]).0, ops[1..]);
    }
  }

  lemma InitialAddsUp()
    ensures Consistent(Initial()) && LostPorts(Initial().ledger) == {}
    ensures AllPorts(Initial()) == Elements(InitialPool()) && |Elements(InitialPool())| == 1000
  {
    AscendingCount(InitialPool());
    hide InitialPool, Elements;
  }

  lemma CountsAddUp(s: State)
    requires Consistent(s)
    ensures |AllPorts(s)| == |s.free| + |s.ledger| && |LostPorts(s.ledger)| <= |s.ledger|
  {
    hide LedgerAgrees;
    assert |s.ledger.Keys| == |s.ledger|;
    Subset(LostPorts(s.ledger), s.ledger.Keys);
  }

  /** From the start of the service: the 1000 ports always add up, and once 1000 transcoding requests
      have found a port there is none left, whatever was deleted in between. */
  lemma PortsAlwaysAddUp(ops: seq<Op>)
    requires FreshIds(Initial(), ops)
    ensures var s := Run(Initial(), ops);
            Consistent(s) && AllPorts(s) == Elements(InitialPool()) && |s.free| + |s.ledger| == 1000
    ensures |LostPorts(Run(Initial(), ops).ledger)| == Losses(Initial(), ops) <= |Run(Initial(), ops).ledger|
    ensures Losses(Initial(), ops) == 1000 ==> Run(Initial(), ops).free == {}
  {
    hide Run, FreshIds, Losses, Initial, InitialPool, LostPorts, AllPorts, Consistent, Elements;
    InitialAddsUp();
    RunConserves(Initial(), ops);
    CountsAddUp(Run(Initial(), ops));
  }

  /** No port of the pool is the RTCP companion of another. */
  lemma PairsNeverOverlap(ops: seq<Op>, p: Port, q: Port)
    requires FreshIds(Initial(), ops)
    requires p in AllPorts(Run(Initial(), ops)) && q in AllPorts(Run(Initial(), ops))
    ensures p + 1 != q
  {
    hide Run, FreshIds, Losses, Consistent, LostPorts, Initial, AllPorts, InitialPool;
    PortsAlwaysAddUp(ops);
    assert p in Elements(InitialPool()) && q in Elements(InitialPool());
    assert p % 2 == 0 && q % 2 == 0;
  }

  lemma {:induction false} Subset(a: set<Port>, b: set<Port>)
    requires a <= b
    ensures |a| <= |b|
  {
    if a == {} {
    } else {
      var x :| x in a;
      Subset(a - {x}, b - {x});
    }
  }

  /** At the end of any run a port in a stream is in no other stream, in no transcoder and not in the pool,
      and it is one of the ports there were at the start. */
  lemma NoPortHeldTwice(start: State, ops: seq<Op>, c: Id, m: Id, i: nat, p: Port)
    requires Consistent(start) && FreshIds(start, ops) && Holds(Run(start, ops).conferences, c, m, i, p)
    ensures var s := Run(start, ops);
            && (forall c', m', i' | Holds(s.conferences, c', m', i', p) :: c == c' && m == m' && i == i')
            && p !in s.free && (forall t | t in s.transcoders :: s.transcoders[t] != p) && p in AllPorts(start)
  {
    RunConserves(start, ops);
    hide Run, FreshIds, Holds;
  }

  lemma PutBack(s: State, id: Id, member: Id, joined: Member, port: Port)
    requires id in s.conferences && member !in s.conferences[id].members && port in s.free && port !in s.ledger
    ensures var conf := s.conferences[id];
            var conf1 := conf.(members := conf.members[member := joined]);
            State(s.free - {port} + {port},
                  s.conferences[id := conf1][id := conf1.(members := conf1.members - {member})],
                  s.transcoders, s.ledger[port := Stream(id, member, 0)] - {port}) == s
  {
    var conf := s.conferences[id];
    assert conf.members[member := joined] - {member} == conf.members;
    assert s.conferences[id := conf] == s.conferences;
    assert s.ledger[port := Stream(id, member, 0)] - {port} == s.ledger;
    assert s.free - {port} + {port} == s.free;
  }

  /** Joining and leaving puts everything back. */
  lemma LeavingUndoesJoining(s: State, id: Id, member: Id, isModerator: bool, pin: string)
    requires Consistent(s) && FreshId(s, AddMemberOp(id, member, isModerator, pin))
    requires WithMember(s, id, member, isModerator, pin).1 == Done
    ensures WithoutMember(WithMember(s, id, member, isModerator, pin).0, id, member) == (s, Done)
  {
    hide LedgerAgrees;
    var port := Least(s.free);
    assert PortsOf([Some(port)]) == {port} by { assert [Some(port)][0] == Some(port); }
    hide PortsOf, Least;
    var joined := Joining(s.conferences[id], isModerator, pin, port);
    PutBack(s, id, member, joined, port);
    assert joined.streams == [Some(port)] && !joined.endConferenceOnExit;
    hide Joining;
  }

  /** Starting and stopping a transcoder costs the pool its second port for good. */
  lemma StoppingATranscoderLeaks(s: State, session: Id, input: string, output: string)
    requires Consistent(s) && session !in s.transcoders
    requires CreateTranscoding(s, session, input, output).1 == Done
    ensures var after := DeleteTranscoding(CreateTranscoding(s, session, input, output).0, session).0;
            var second := Least(s.free - {Least(s.free)});
            second in s.free && after == s.(free := s.free - {second}, ledger := s.ledger[second := Lost])
  {
    var first := Least(s.free);
    var second := Least(s.free - {first});
    var s1 := CreateTranscoding(s, session, input, output).0;
    assert s1.transcoders - {session} == s.transcoders;
    assert s1.free + {first} == s.free - {second};
    assert s1.ledger - {first} == s.ledger[second := Lost];
  }

  lemma PortsInOneMore(members: map<Id, Member>, left: set<Id>, m: Id)
    requires m in left && m in members
    ensures PortsIn(members - (left - {m})) == PortsIn(members - left) + PortsOf(members[m].streams)
  {
    hide PortsOf;
    var before, after := members - left, members - (left - {m});
    forall p ensures p in PortsIn(after) <==> p in PortsIn(before) || p in PortsOf(members[m].streams) {
      if p in PortsIn(after) {
        var n :| n in after && p in PortsOf(after[n].streams);
        assert n == m || n in before;
      }
      if p in PortsIn(before) {
        var n :| n in before && p in PortsOf(before[n].streams);
        assert n in after;
      }
      assert m in after;
    }
  }

  lemma PortsInContain(members: map<Id, Member>, m: Id)
    requires m in members
    ensures PortsOf(members[m].streams) <= PortsIn(members)
  {
    hide PortsOf;
  }

  // ---------- what the requests answer ----------

  /** A conference is refused exactly when 100 are open; a new one is active and empty and has the settings that
      it was asked for, and nothing else changes. */
  lemma CreateAnswersExactly(s: State, id: Id, max: int, pin: string, moderatorPin: string, mute: bool)
    ensures var (s', outcome) := Step(s, CreateConferenceOp(id, max, pin, moderatorPin, mute));
            && outcome in {Done, TooMany} && (outcome == TooMany <==> |s.conferences| >= 100)
            && (outcome == TooMany ==> s' == s)
            && (outcome == Done ==>
                  && s'.conferences.Keys == s.conferences.Keys + {id} && s' == s.(conferences := s'.conferences)
                  && (forall c | c in s.conferences && c != id :: s'.conferences[c] == s.conferences[c])
                  && var conf := s'.conferences[id];
                     && conf.state == Active && conf.members == map[] && conf.maxMembers == max
                     && conf.pin == pin && conf.moderatorPin == moderatorPin && conf.muteOnEntry == mute)
  {
    var conf := Conference(Active, max, pin, moderatorPin, mute, map[]);
    assert Step(s, CreateConferenceOp(id, max, pin, moderatorPin, mute)) ==
           if |s.conferences| >= 100 then (s, TooMany) else (s.(conferences := s.conferences[id := conf]), Done);
    assert s.conferences[id := conf].Keys == s.conferences.Keys + {id};
    hide Step, WithConference;
  }

  /** Who gets into a conference just created, by the settings it was asked for, and how: by the moderator PIN as
      a moderator, silent when it mutes on entry, with the least free port. */
  lemma JoinAfterCreate(s: State, id: Id, max: int, pin: string, moderatorPin: string, mute: bool,
      member: Id, isModerator: bool, given: string)
    requires |s.conferences| < 100
    ensures var created := Step(s, CreateConferenceOp(id, max, pin, moderatorPin, mute)).0;
            var (s', outcome) := Step(created, AddMemberOp(id, member, isModerator, given));
            && (outcome == Full <==> max <= 0)
            && (outcome == InvalidPin <==>
                  max > 0 && pin != "" && given != pin && (moderatorPin == "" || given != moderatorPin))
            && (outcome == Exhausted <==> outcome !in {Full, InvalidPin} && s.free == {})
            && (outcome in {Full, InvalidPin, Exhausted} || outcome == Done)
            && (outcome == Done ==>
                  id in s'.conferences && s'.conferences[id].members.Keys == {member} && s.free != {} &&
                  s'.conferences[id].members[member] ==
                  Member(isModerator || (pin != "" && given == moderatorPin && moderatorPin != pin), !mute, false,
                         [Some(Least(s.free))]))
  {
    hide Least;
  }

  ghost predicate Joined(s: State, s': State, id: Id, member: Id, port: Port)
    requires id in s.conferences
  {
    && s'.free == s.free - {port} && s'.transcoders == s.transcoders
    && s'.conferences.Keys == s.conferences.Keys
    && (forall c | c in s.conferences && c != id :: s'.conferences[c] == s.conferences[c])
    && var before, after := s.conferences[id], s'.conferences[id];
       && after.(members := before.members) == before && after.members.Keys == before.members.Keys + {member}
       && (forall m | m in before.members && m != member :: after.members[m] == before.members[m])
       && after.members[member].streams == [Some(port)]
  }

  lemma AdmittedJoins(s: State, id: Id, member: Id, isModerator: bool, pin: string)
    requires id in s.conferences && Refusal(s.conferences[id], pin).None? && s.free != {}
    ensures Joined(s, WithMember(s, id, member, isModerator, pin).0, id, member, Least(s.free))
  {
    hide Least, Refusal;
  }

  /** The refusals of a caller in their order; one who gets in is the only change to the conference, and the
      others stay as they are. */
  lemma JoinAnswersExactly(s: State, id: Id, member: Id, isModerator: bool, pin: string)
    ensures var (s', outcome) := Step(s, AddMemberOp(id, member, isModerator, pin));
            && (outcome != Done ==> s' == s) && (outcome == NotFound <==> id !in s.conferences)
            && (id in s.conferences ==>
                  var conf := s.conferences[id];
                  && (outcome == ConferenceLocked <==> conf.state == Locked)
                  && (outcome == Gone <==> conf.state == Terminated)
                  && (outcome == Full <==> conf.state in {Pending, Active} && |conf.members| >= conf.maxMembers)
                  && (outcome == InvalidPin <==>
                        && conf.state in {Pending, Active} && |conf.members| < conf.maxMembers
                        && conf.pin != "" && pin != conf.pin && (conf.moderatorPin == "" || pin != conf.moderatorPin))
                  && (outcome == Exhausted <==> outcome !in {ConferenceLocked, Gone, Full, InvalidPin} && s.free == {})
                  && (outcome == Done <==> outcome !in {ConferenceLocked, Gone, Full, InvalidPin, Exhausted})
                  && (outcome == Done ==> s.free != {} && Joined(s, s', id, member, Least(s.free))))
  {
    hide Least, Joined, Joining;
    if id in s.conferences {
      AdmittedExactly(s.conferences[id], pin);
      if s.free != {} && Refusal(s.conferences[id], pin).None? { AdmittedJoins(s, id, member, isModerator, pin); }
    }
  }

  lemma PortOfStream(streams: seq<Option<Port>>, p: Port)
    ensures p in PortsOf(streams) <==> Some(p) in streams
  {
    if Some(p) in streams {
      var i :| 0 <= i < |streams| && streams[i] == Some(p);
      assert streams[i].value in PortsOf(streams);
    }
  }

  /** Leaving fails for an unknown conference or member. Otherwise the member's ports are free again and it is gone,
      with the whole conference and all its ports if its exit ends it; the others stay as they are. */
  lemma LeaveAnswersExactly(s: State, id: Id, member: Id)
    ensures var (s', outcome) := Step(s, RemoveMemberOp(id, member));
            && outcome in {Done, NotFound} && (outcome != Done ==> s' == s)
            && (outcome == NotFound <==> id !in s.conferences || member !in s.conferences[id].members)
            && (outcome == Done ==>
                  var conf := s.conferences[id];
                  && s'.transcoders == s.transcoders
                  && (forall c | c in s.conferences && c != id ::
                        c in s'.conferences && s'.conferences[c] == s.conferences[c])
                  && (id !in s'.conferences <==> conf.members[member].endConferenceOnExit)
                  && (id !in s'.conferences ==>
                        forall p :: p in s'.free <==>
                          p in s.free || exists m :: m in conf.members && Some(p) in conf.members[m].streams)
                  && (id in s'.conferences ==>
                        && s'.conferences[id] == conf.(members := conf.members - {member})
                        && (forall p :: p in s'.free <==> p in s.free || Some(p) in conf.members[member].streams)))
  {
    if id in s.conferences && member in s.conferences[id].members {
      var members := s.conferences[id].members;
      forall m, p | m in members ensures p in PortsOf(members[m].streams) <==> Some(p) in members[m].streams {
        PortOfStream(members[m].streams, p);
      }
      hide PortsOf;
      forall p ensures p in PortsIn(members) <==> exists m :: m in members && Some(p) in members[m].streams {}
      hide PortsIn;
    }
  }

  /** Destroying, locking and unlocking fail exactly for an unknown conference. The first takes it away and frees its
      members' ports, the others change its state alone. */
  lemma RoomAnswersExactly(s: State, id: Id, state: ConferenceState)
    ensures var (s', outcome) := Step(s, DestroyOp(id));
            && outcome == (if id in s.conferences then Done else NotFound) && (outcome == NotFound ==> s' == s)
            && (outcome == Done ==>
                  && s'.conferences == s.conferences - {id} && s'.transcoders == s.transcoders
                  && (forall p :: p in s'.free <==>
                        p in s.free || exists m :: m in s.conferences[id].members &&
                                                   Some(p) in s.conferences[id].members[m].streams))
    ensures var (s', outcome) := Step(s, SetStateOp(id, state));
            && outcome == (if id in s.conferences then Done else NotFound) && (outcome == NotFound ==> s' == s)
            && (outcome == Done ==>
                  s' == s.(conferences := s'.conferences) &&
                  s'.conferences == s.conferences[id := s.conferences[id].(state := state)])
  {
    if id in s.conferences {
      var members := s.conferences[id].members;
      forall m, p | m in members ensures p in PortsOf(members[m].streams) <==> Some(p) in members[m].streams {
        PortOfStream(members[m].streams, p);
      }
      hide PortsOf;
      forall p ensures p in PortsIn(members) <==> exists m :: m in members && Some(p) in members[m].streams {}
      hide PortsIn;
    }
  }

  /** Transcoding takes both codecs from the list of five, and two free ports, of which it records the least. */
  lemma TranscodeAnswersExactly(s: State, session: Id, input: string, output: string)
    ensures var (s', outcome) := Step(s, CreateTranscodingOp(session, input, output));
            var known := {"PCMU/8000", "PCMA/8000", "G729/8000", "AMR/8000", "AMR-WB/16000"};
            && outcome in {Done, UnsupportedCodec, Exhausted}
            && (outcome == UnsupportedCodec <==> input !in known || output !in known)
            && (outcome == Done ==> s.free != {} && s'.transcoders == s.transcoders[session := Least(s.free)])
            && (outcome == Done ==> exists p, q :: p in s.free && q in s.free && p != q && s'.free == s.free - {p, q})
            && (outcome == Exhausted ==>
                  && s'.free == {} && s'.transcoders == s.transcoders
                  && forall p, q | p in s.free && q in s.free :: p == q)
            && s'.conferences == s.conferences
  {
    if s.free != {} && s.free != {Least(s.free)} {
      var first := Least(s.free);
      var second := Least(s.free - {first});
      assert s.free - {first} - {second} == s.free - {first, second};
      assert first != second;
    }
  }

  // ---------- the service ----------

  class MrfStorage {
    var pool: seq<Port>
    var conferences: map<Id, Conference>
    var transcodingSessions: map<Id, Port>
    ghost var ledger: map<Port, Holder>

    ghost function View(): State reads this { State(Elements(pool), conferences, transcodingSessions, ledger) }

    ghost predicate Valid() reads this { Ascending(pool) && Consistent(View()) }

    constructor ()
      ensures Valid() && View() == Initial()
    {
      pool := InitialPool();
      conferences, transcodingSessions, ledger := map[], map[], map[];
    }

    /** The list's first port is the pool's least. */
    method AllocateRtpPorts() returns (ports: Option<(Port, Port)>)
      requires Ascending(pool)
      modifies this`pool
      ensures Ascending(pool)
      ensures ports.None? <==> Elements(old(pool)) == {}
      ensures ports.None? ==> pool == old(pool)
      ensures ports.Some? ==>
              Elements(old(pool)) != {} && ports.value == (Least(Elements(old(pool))), Least(Elements(old(pool))) + 1)
      ensures ports.Some? ==> Elements(pool) == Elements(old(pool)) - {ports.value.0}
    {
      if pool == [] { return None; }
      assert pool[0] in Elements(pool);
      assert Least(Elements(pool)) in pool;
      var rtpPort := pool[0];
      pool := pool[1..];
      ports := Some((rtpPort, rtpPort + 1));
    }

    method ReleaseRtpPorts(port: Port)
      requires Ascending(pool)
      modifies this`pool
      ensures Ascending(pool) && Elements(pool) == Elements(old(pool)) + {port}
    {
      if port !in pool {
        SortedAppend(pool, port);
        pool := Sorted(pool + [port]);
      }
    }

    method ReleaseStreams(streams: seq<Option<Port>>)
      requires Ascending(pool)
      modifies this`pool
      ensures Ascending(pool) && Elements(pool) == Elements(old(pool)) + PortsOf(streams)
    {
      var i := 0;
      while i < |streams|
        invariant 0 <= i <= |streams|
        invariant Ascending(pool) && Elements(pool) == Elements(old(pool)) + PortsOf(streams[..i])
      {
        assert PortsOf(streams[..i + 1]) == PortsOf(streams[..i]) + if streams[i].Some? then {streams[i].value} else {};
        if streams[i].Some? { ReleaseRtpPorts(streams[i].value); }
        i := i + 1;
      }
      assert streams[..i] == streams;
    }

    /** `id` is the random id. */
    method CreateConference(id: Id, maxMembers: int, pin: string, moderatorPin: string, muteOnEntry: bool)
      returns (outcome: Outcome)
      requires Valid() && id !in conferences
      modifies this
      ensures Valid()
      ensures (View(), outcome) == WithConference(old(View()), id, maxMembers, pin, moderatorPin, muteOnEntry)
    {
      if |conferences| >= MAX_CONFERENCES { return TooMany; }
      var conf := Conference(Active, maxMembers, pin, moderatorPin, muteOnEntry, map[]);
      ConferenceSettingsConserve(View(), id, conf);
      conferences := conferences[id := conf];
      outcome := Done;
    }

    method LockConference(id: Id) returns (outcome: Outcome)
      requires Valid()
      modifies this
      ensures Valid()
      ensures (View(), outcome) == SetState(old(View()), id, Locked)
    {
      if id !in conferences { return NotFound; }
      ConferenceSettingsConserve(View(), id, conferences[id].(state := Locked));
      conferences := conferences[id := conferences[id].(state := Locked)];
      outcome := Done;
    }

    method UnlockConference(id: Id) returns (outcome: Outcome)
      requires Valid()
      modifies this
      ensures Valid()
      ensures (View(), outcome) == SetState(old(View()), id, Active)
    {
      if id !in conferences { return NotFound; }
      ConferenceSettingsConserve(View(), id, conferences[id].(state := Active));
      conferences := conferences[id := conferences[id].(state := Active)];
      outcome := Done;
    }

    /** Also called half-way through a removal, when the leaving member's ports are already back. */
    method DestroyConference(id: Id) returns (outcome: Outcome)
      requires Ascending(pool)
      modifies this
      ensures Ascending(pool)
      ensures (View(), outcome) == Destroy(old(View()), id)
      ensures old(Valid()) ==> Valid()
    {
      hide Consistent;
      assert Valid() ==> Consistent(Destroy(View(), id).0) by {
        if Valid() { DestroyConserves(View(), id); }
      }
      if id !in conferences { return NotFound; }
      var members := conferences[id].members;
      var left := members.Keys;
      while left != {}
        invariant left <= members.Keys && Ascending(pool)
        invariant Elements(pool) == Elements(old(pool)) + PortsIn(members - left)
        invariant conferences == old(conferences) && transcodingSessions == old(transcodingSessions) &&
                  ledger == old(ledger)
        decreases left
      {
        var m :| m in left;
        ReleaseStreams(members[m].streams);
        PortsInOneMore(members, left, m);
        left := left - {m};
      }
      assert members - {} == members;
      ledger := ledger - PortsIn(members);
      conferences := conferences - {id};
      outcome := Done;
    }

    /** The checks before a port is taken. */
    method Admit(conf: Conference, isModerator: bool, pin: string) returns (refusal: Option<Outcome>, moderator: bool)
      ensures refusal == Refusal(conf, pin)
      ensures refusal.None? <==>
              && conf.state in {Pending, Active} && |conf.members| < conf.maxMembers
              && (conf.pin == "" || pin == conf.pin || pin == conf.moderatorPin != "")
      ensures refusal.None? ==>
              (moderator <==>
               isModerator || (conf.pin != "" && conf.pin != conf.moderatorPin && pin == conf.moderatorPin))
    {
      AdmittedExactly(conf, pin);
      refusal, moderator := None, isModerator;
      if conf.state == Locked { return Some(ConferenceLocked), moderator; }
      if conf.state == Terminated { return Some(Gone), moderator; }
      if |conf.members| >= conf.maxMembers { return Some(Full), moderator; }
      if conf.pin != "" && pin != conf.pin {
        if !(conf.moderatorPin != "" && pin == conf.moderatorPin) { return Some(InvalidPin), moderator; }
        moderator := true;
      }
    }

    method AddMember(id: Id, member: Id, isModerator: bool, pin: string) returns (outcome: Outcome)
      requires Valid() && (id in conferences ==> member !in conferences[id].members)
      modifies this
      ensures Valid()
      ensures (View(), outcome) == WithMember(old(View()), id, member, isModerator, pin)
    {
      hide Consistent, Least, Elements, Refusal;
      assert Consistent(WithMember(View(), id, member, isModerator, pin).0) by {
        AddMemberConserves(View(), id, member, isModerator, pin);
      }
      if id !in conferences { return NotFound; }
      var conf := conferences[id];
      var refusal, moderator := Admit(conf, isModerator, pin);
      if refusal.Some? { return refusal.value; }
      var ports := AllocateRtpPorts();
      if ports.None? { return Exhausted; }
      ModeratorExactly(conf, isModerator, pin, ports.value.0);
      var joined := Member(moderator, !conf.muteOnEntry, false, [Some(ports.value.0)]);
      conferences := conferences[id := conf.(members := conf.members[member := joined])];
      ledger := ledger[ports.value.0 := Stream(id, member, 0)];
      outcome := Done;
    }

    method RemoveMember(id: Id, member: Id) returns (outcome: Outcome)
      requires Valid()
      modifies this
      ensures Valid()
      ensures (View(), outcome) == WithoutMember(old(View()), id, member)
    {
      hide Consistent;
      assert Consistent(WithoutMember(View(), id, member).0) by { RemoveMemberConserves(View(), id, member); }
      if id !in conferences || member !in conferences[id].members { return NotFound; }
      var conf := conferences[id];
      ReleaseStreams(conf.members[member].streams);
      if conf.members[member].endConferenceOnExit {
        PortsInContain(conf.members, member);
        assert Elements(pool) + PortsIn(conf.members) == Elements(old(pool)) + PortsIn(conf.members);
        outcome := DestroyConference(id);
        return;
      }
      conferences := conferences[id := conf.(members := conf.members - {member})];
      ledger := ledger - PortsOf(conf.members[member].streams);
      outcome := Done;
    }

    method CreateTranscodingSession(session: Id, input: string, output: string) returns (outcome: Outcome)
      requires Valid() && session !in transcodingSessions
      modifies this
      ensures Valid()
      ensures (View(), outcome) == CreateTranscoding(old(View()), session, input, output)
    {
      hide Consistent, Supported, Least, Elements;
      assert Consistent(CreateTranscoding(View(), session, input, output).0) by {
        CreateTranscodingConserves(View(), session, input, output);
      }
      if !Supported(input) || !Supported(output) { return UnsupportedCodec; }
      ghost var before := ledger;
      var first, second := AllocateTwice();
      if second.None? { return Exhausted; }
      transcodingSessions := transcodingSessions[session := first.value];
      ledger := before[first.value := Input(session)][second.value := Lost];
      outcome := Done;
    }

    /** If the second allocation fails, the caller never learns of the first port. */
    method AllocateTwice() returns (first: Option<Port>, second: Option<Port>)
      requires Ascending(pool)
      modifies this`pool, this`ledger
      ensures Ascending(pool)
      ensures Elements(old(pool)) == {} ==> second == None && Elements(pool) == {} && ledger == old(ledger)
      ensures Elements(old(pool)) != {} ==>
                var p := Least(Elements(old(pool)));
                first == Some(p) && ledger == old(ledger)[p := Lost] &&
                if Elements(old(pool)) == {p} then second == None && Elements(pool) == {}
                else Elements(old(pool)) - {p} != {} &&
                     second == Some(Least(Elements(old(pool)) - {p})) &&
                     Elements(pool) == Elements(old(pool)) - {p} - {second.value}
    {
      hide Elements, Least;
      ghost var free := Elements(pool);
      first, second := None, None;
      var ports := AllocateRtpPorts();
      if ports.Some? {
        first := Some(ports.value.0);
        ledger := ledger[ports.value.0 := Lost];
        assert free - {ports.value.0} == {} <==> free == {ports.value.0};
        ports := AllocateRtpPorts();
        if ports.Some? { second := Some(ports.value.0); }
      }
    }

    method DeleteTranscodingSession(session: Id) returns (outcome: Outcome)
      requires Valid()
      modifies this
      ensures Valid()
      ensures (View(), outcome) == DeleteTranscoding(old(View()), session)
    {
      hide Consistent;
      assert Consistent(DeleteTranscoding(View(), session).0) by { DeleteTranscodingConserves(View(), session); }
      if session !in transcodingSessions { return NotFound; }
      var port := transcodingSessions[session];
      ReleaseRtpPorts(port);
      transcodingSessions := transcodingSessions - {session};
      ledger := ledger - {port};
      outcome := Done;
    }
  }
}
