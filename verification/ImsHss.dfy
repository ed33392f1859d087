/** The IMS home subscriber server: its two-map database and the Cx requests that read or change a
    registration (5G_Emulator_API/core_network/ims_hss.py). */
module ImsHss {
  import opened Common

  datatype RegistrationState = NotRegistered | Registered | Unregistered

  datatype Subscription = Subscription(
    impi: string, impus: set<string>, roamingAllowed: bool, visited: set<string>,
    state: RegistrationState, scscf: Option<string>)

  /** The subscriptions by private identity, and the private identity of each public one. */
  datatype State = State(subscriptions: map<string, Subscription>, impuToImpi: map<string, string>)

  /** What a subscription starts with. */
  datatype Provision = Provision(impi: string, impus: set<string>, roamingAllowed: bool, visited: set<string>)

  datatype Op =
    | Create(provision: Provision)
    | Delete(impi: string)
    | Sar(impu: string, assignmentType: int, server: string)
    | Rtr(impi: string)

  datatype Outcome = Success | UserUnknown | AlreadyExists | InvalidAssignmentType

  /** A Cx answer: the Diameter result code and the S-CSCF name, when there is one. */
  datatype Answer = Answer(code: int, server: Option<string>)

  // ---------- the database ----------

  function ByImpu(s: State, impu: string): Option<Subscription> {
    if impu in s.impuToImpi && s.impuToImpi[impu] != "" && s.impuToImpi[impu] in s.subscriptions
    then Some(s.subscriptions[s.impuToImpi[impu]]) else None
  }

  /** Server assignment types 1 and 2 register, 3 serves an unregistered user, 4 and 5 deregister; the
      other known types change nothing. */
  function Assign(sub: Subscription, assignmentType: int, server: string): Subscription {
    if assignmentType in {1, 2} then sub.(state := Registered, scscf := Some(server))
    else if assignmentType in {4, 5} then sub.(state := NotRegistered, scscf := None)
    else if assignmentType == 3 then sub.(state := Unregistered, scscf := Some(server))
    else sub
  }

  function Fresh(p: Provision): Subscription {
    Subscription(p.impi, p.impus, p.roamingAllowed, p.visited, NotRegistered, None)
  }

  function Point(index: map<string, string>, impus: set<string>, impi: string): map<string, string> {
    index + map impu | impu in impus :: impi
  }

  function Step(s: State, op: Op): (State, Outcome) {
    match op
    case Create(p) =>
      if p.impi in s.subscriptions then (s, AlreadyExists)
      else (State(s.subscriptions[p.impi := Fresh(p)], Point(s.impuToImpi, p.impus, p.impi)), Success)
    case Delete(impi) =>
      if impi !in s.subscriptions then (s, UserUnknown)
      else (State(s.subscriptions - {impi}, s.impuToImpi - s.subscriptions[impi].impus), Success)
    case Sar(impu, assignmentType, server) =>
      var sub := ByImpu(s, impu);
      if sub.None? then (s, UserUnknown)
      else if !(0 <= assignmentType <= 14) then (s, InvalidAssignmentType)
      else (s.(subscriptions := s.subscriptions[sub.value.impi := Assign(sub.value, assignmentType, server)]), Success)
    case Rtr(impi) =>
      if impi !in s.subscriptions then (s, UserUnknown)
      else (s.(subscriptions := s.subscriptions[impi := s.subscriptions[impi].(state := NotRegistered, scscf := None)]),
            Success)
  }

  function Empty(): State { State(map[], map[]) }

  function Run(ops: seq<Op>): State {
    if ops == [] then Empty() else Step(Run(ops[..|ops| - 1]), ops[|ops| - 1]).0
  }

  // ---------- the two read requests ----------

  /** The text between the first and the second "@"; empty without one. */
  function Domain(identity: string): string {
    if identity == "" then "" else if identity[0] == '@' then UpToAt(identity[1..]) else Domain(identity[1..])
  }

  function UpToAt(text: string): string {
    if text == "" || text[0] == '@' then "" else [text[0]] + UpToAt(text[1..])
  }

  /** A private identity other than the subscription's own passes when it has the same domain, or no "@". */
  predicate IdentityFits(impi: string, requested: string) {
    impi == requested || '@' !in requested || Domain(impi) == Domain(requested)
  }

  predicate RoamingFits(sub: Subscription, network: string) {
    network == "" || sub.roamingAllowed || network in sub.visited
  }

  lemma {:induction false} UpToAtStops(text: string, rest: string)
    requires '@' !in text && (rest != "" ==> rest[0] == '@')
    ensures UpToAt(text + rest) == text
  {
    if text == "" {
      assert text + rest == rest;
    } else {
      assert (text + rest)[1..] == text[1..] + rest;
      UpToAtStops(text[1..], rest);
    }
  }

  /** For "user@domain", whatever follows a second "@", the domain is what one expects. */
  lemma {:induction false} DomainIsBetweenAts(user: string, domain: string, rest: string)
    requires '@' !in user && '@' !in domain && (rest != "" ==> rest[0] == '@')
    ensures Domain(user + "@" + domain + rest) == domain
  {
    if user == "" {
      assert ("" + "@" + domain + rest)[1..] == domain + rest;
      UpToAtStops(domain, rest);
    } else {
      assert (user + "@" + domain + rest)[1..] == user[1..] + "@" + domain + rest;
      DomainIsBetweenAts(user[1..], domain, rest);
    }
  }

  /** UAR refuses the private identity of a known subscriber exactly when it is another one, has an "@", and
      the domains differ: any identity without an "@" goes through. */
  lemma UarRefusesIdentityExactly(s: State, impu: string, requested: string, network: string)
    requires ByImpu(s, impu).Some?
    ensures var impi := ByImpu(s, impu).value.impi;
            UarAnswer(ByImpu(s, impu), requested, network).code == 5002 <==>
            impi != requested && '@' in requested && Domain(impi) != Domain(requested)
  {
    hide Domain, ByImpu;
  }

  function UarAnswer(sub: Option<Subscription>, impi: string, network: string): Answer {
    if sub.None? then Answer(5001, None)
    else if !IdentityFits(sub.value.impi, impi) then Answer(5002, None)
    else if !RoamingFits(sub.value, network) then Answer(5004, None)
    else if sub.value.scscf.Some? && sub.value.scscf.value != "" && sub.value.state == Registered
      then Answer(2002, sub.value.scscf)
    else Answer(2001, None)
  }

  function LirAnswer(sub: Option<Subscription>): Answer {
    if sub.None? then Answer(5001, None)
    else if sub.value.scscf.None? || sub.value.scscf.value == "" then Answer(5003, None)
    else Answer(2001, sub.value.scscf)
  }

  // ---------- one subscriber's own history ----------

  /** What the run means for one private identity, without any index: only the requests that are
      addressed to it, or to a public identity it owns, touch it. */
  function Account(ops: seq<Op>, impi: string): Option<Subscription> {
    if ops == [] then None
    else
      var before, op := Account(ops[..|ops| - 1], impi), ops[|ops| - 1];
      match op
      case Create(p) => if p.impi == impi && before.None? then Some(Fresh(p)) else before
      case Delete(i) => if i == impi then None else before
      case Sar(impu, assignmentType, server) =>
        if before.Some? && impu in before.value.impus && 0 <= assignmentType <= 14
        then Some(Assign(before.value, assignmentType, server)) else before
      case Rtr(i) => if before.Some? && i == impi then Some(before.value.(state := NotRegistered, scscf := None))
        else before
  }

  /** The index sends each public identity to the live subscription that owns it, and no other. */
  ghost predicate Consistent(s: State) {
    && (forall i | i in s.subscriptions :: i != "" && s.subscriptions[i].impi == i)
    && (forall i, u | i in s.subscriptions && u in s.subscriptions[i].impus ::
        u in s.impuToImpi && s.impuToImpi[u] == i)
    && (forall u | u in s.impuToImpi ::
        s.impuToImpi[u] in s.subscriptions && u in s.subscriptions[s.impuToImpi[u]].impus)
  }

  /** A new subscription has a name and none of the public identities in use. */
  predicate Separate(s: State, op: Op) {
    op.Create? && op.provision.impi !in s.subscriptions ==>
      op.provision.impi != "" && forall u | u in op.provision.impus :: u !in s.impuToImpi
  }

  ghost predicate AllSeparate(ops: seq<Op>) {
    forall i | 0 <= i < |ops| :: Separate(Run(ops[..i]), ops[i])
  }

  /** A create keeps the index right exactly when the new subscription is separate. */
  lemma CreateKeepsExactly(s: State, p: Provision)
    requires Consistent(s)
    ensures Consistent(Step(s, Create(p)).0) <==> Separate(s, Create(p))
  {
    if p.impi !in s.subscriptions {
      if Separate(s, Create(p)) {
        SeparateKeeps(s, p);
      } else if u :| u in p.impus && u in s.impuToImpi {
        var owner, s' := s.impuToImpi[u], Step(s, Create(p)).0;
        assert owner in s'.subscriptions && u in s'.subscriptions[owner].impus && s'.impuToImpi[u] != owner;
      } else {
        assert p.impi in Step(s, Create(p)).0.subscriptions;
      }
    }
  }

  lemma SeparateKeeps(s: State, p: Provision)
    requires Consistent(s) && Separate(s, Create(p))
    ensures Consistent(Step(s, Create(p)).0)
  {}

  lemma DeleteKeeps(s: State, impi: string)
    requires Consistent(s)
    ensures Consistent(Step(s, Delete(impi)).0)
  {
    if impi in s.subscriptions {
      forall i, u | i in s.subscriptions && i != impi && u in s.subscriptions[i].impus
        ensures u !in s.subscriptions[impi].impus
      {
        assert s.impuToImpi[u] == i;
      }
    }
  }

  lemma ChangeKeeps(s: State, impi: string, sub: Subscription)
    requires Consistent(s) && impi in s.subscriptions && sub.impi == impi && sub.impus == s.subscriptions[impi].impus
    ensures Consistent(s.(subscriptions := s.subscriptions[impi := sub]))
  {}

  lemma StepKeeps(s: State, op: Op)
    requires Consistent(s) && Separate(s, op)
    ensures Consistent(Step(s, op).0)
  {
    match op
    case Create(p) => CreateKeepsExactly(s, p);
    case Delete(impi) => DeleteKeeps(s, impi);
    case Sar(impu, assignmentType, server) =>
      var sub := ByImpu(s, impu);
      if sub.Some? { ChangeKeeps(s, sub.value.impi, Assign(sub.value, assignmentType, server)); }
    case Rtr(impi) =>
      if impi in s.subscriptions {
        ChangeKeeps(s, impi, s.subscriptions[impi].(state := NotRegistered, scscf := None));
      }
  }

  function Stored(s: State, impi: string): Option<Subscription> {
    if impi in s.subscriptions then Some(s.subscriptions[impi]) else None
  }

  /** One step of the database is one step of each history. */
  lemma StepFollowsHistory(ops: seq<Op>, impi: string)
    requires ops != [] && Consistent(Run(ops[..|ops| - 1]))
    requires Stored(Run(ops[..|ops| - 1]), impi) == Account(ops[..|ops| - 1], impi)
    ensures Stored(Run(ops), impi) == Account(ops, impi)
  {
    hide Assign, Fresh, Point;
    var s := Run(ops[..|ops| - 1]);
    match ops[|ops| - 1]
    case Create(p) =>
    case Delete(i) =>
    case Sar(impu, assignmentType, server) =>
      assert ByImpu(s, impu).Some? ==> ByImpu(s, impu).value.impi == s.impuToImpi[impu];
    case Rtr(i) =>
  }

  ghost predicate AlwaysConsistent(ops: seq<Op>) {
    forall i | 0 <= i <= |ops| :: Consistent(Run(ops[..i]))
  }

  lemma RunOneMore(ops: seq<Op>, op: Op)
    ensures Run(ops + [op]) == Step(Run(ops), op).0
  {
    hide Step;
    assert (ops + [op])[..|ops|] == ops;
  }

  /** What a run of one request more adds to the two conditions on runs. */
  lemma OneMoreRequest(ops: seq<Op>, op: Op)
    ensures AllSeparate(ops + [op]) <==> AllSeparate(ops) && Separate(Run(ops), op)
    ensures AlwaysConsistent(ops + [op]) <==> AlwaysConsistent(ops) && Consistent(Run(ops + [op]))
  {
    hide Run, Consistent, Separate;
    var all := ops + [op];
    assert all[..|ops|] == ops && all[..|all|] == all;
    forall i | 0 <= i <= |ops| ensures all[..i] == ops[..i] {}
    forall i | 0 <= i < |ops| ensures all[i] == ops[i] {}
  }

  lemma {:induction false} RunKeeps(ops: seq<Op>)
    ensures AllSeparate(ops) ==> Consistent(Run(ops))
    ensures AlwaysConsistent(ops) <==> AllSeparate(ops)
  {
    if ops == [] {
    } else {
      var before, last := ops[..|ops| - 1], ops[|ops| - 1];
      assert ops == before + [last];
      OneMoreRequest(before, last);
      RunOneMore(before, last);
      RunKeeps(before);
      hide AlwaysConsistent, AllSeparate, Run, Consistent, Separate, Step;
      if AllSeparate(before) {
        if last.Create? {
          CreateKeepsExactly(Run(before), last.provision);
        } else {
          SeparateUnlessCreate(Run(before), last);
          StepKeeps(Run(before), last);
        }
      }
    }
  }

  lemma SeparateUnlessCreate(s: State, op: Op)
    requires !op.Create?
    ensures Separate(s, op)
  {}

  /** The index is right after every request of a run if and only if every subscription that the run
      creates is separate at its point. */
  lemma IndexStaysRight(ops: seq<Op>)
    ensures (forall i | 0 <= i <= |ops| :: Consistent(Run(ops[..i]))) <==> AllSeparate(ops)
  {
    RunKeeps(ops);
    hide Run, Consistent, AllSeparate;
  }

  lemma {:induction false} RunFollowsHistory(ops: seq<Op>, impi: string)
    requires AllSeparate(ops)
    ensures Consistent(Run(ops)) && Stored(Run(ops), impi) == Account(ops, impi)
  {
    RunKeeps(ops);
    hide AllSeparate, AlwaysConsistent, Consistent, Step, Separate;
    if ops == [] {
    } else {
      hide Run, Account, Stored;
      var before, last := ops[..|ops| - 1], ops[|ops| - 1];
      assert ops == before + [last];
      OneMoreRequest(before, last);
      RunFollowsHistory(before, impi);
      StepFollowsHistory(ops, impi);
    }
  }

  /** Looking up a public identity finds its owner, and only its owner. */
  lemma LookupFindsOwner(ops: seq<Op>, impi: string, impu: string)
    requires AllSeparate(ops)
    ensures Account(ops, impi).Some? && impu in Account(ops, impi).value.impus ==>
            ByImpu(Run(ops), impu) == Account(ops, impi)
    ensures ByImpu(Run(ops), impu).Some? && ByImpu(Run(ops), impu).value.impi == impi ==>
              Account(ops, impi) == ByImpu(Run(ops), impu) && impu in Account(ops, impi).value.impus
  {
    RunFollowsHistory(ops, impi);
    hide Account, Run, AllSeparate;
  }

  /** The other known types, the two that should keep the server name among them, change nothing at all. */
  lemma OtherTypesChangeNothing(s: State, impu: string, assignmentType: int, server: string)
    requires Consistent(s) && ByImpu(s, impu).Some? && (assignmentType == 0 || 6 <= assignmentType <= 14)
    ensures Step(s, Sar(impu, assignmentType, server)) == (s, Success)
  {
    var sub := ByImpu(s, impu).value;
    assert s.subscriptions[sub.impi] == sub;
    assert s.subscriptions[sub.impi := sub] == s.subscriptions;
  }

  // ---------- the last effective event ----------

  /** The request that decided the registration: the last SAR of types 1 to 5 for one of the public
      identities, or RTR, since the subscription was created. */
  function LastEffective(ops: seq<Op>, impi: string): Option<Op> {
    if ops == [] then None
    else
      var before, op := ops[..|ops| - 1], ops[|ops| - 1];
      var account := Account(before, impi);
      if account.None? then None
      else if op.Sar? && op.impu in account.value.impus && 1 <= op.assignmentType <= 5 then Some(op)
      else if op == Rtr(impi) then Some(op)
      else if op == Delete(impi) then None
      else LastEffective(before, impi)
  }

  function Registration(last: Option<Op>): (RegistrationState, Option<string>) {
    if last.Some? && last.value.Sar? && last.value.assignmentType in {1, 2} then (Registered, Some(last.value.server))
    else if last.Some? && last.value.Sar? && last.value.assignmentType == 3 then (Unregistered, Some(last.value.server))
    else (NotRegistered, None)
  }

  lemma {:induction false} LastEffectiveDecides(ops: seq<Op>, impi: string)
    ensures Account(ops, impi).Some? ==>
              (Account(ops, impi).value.state, Account(ops, impi).value.scscf) == Registration(LastEffective(ops, impi))
  {
    if ops == [] {
    } else {
      LastEffectiveDecides(ops[..|ops| - 1], impi);
    }
  }

  /** The server that the last effective request assigned, if it has a name. */
  function NamedServer(last: Option<Op>): Option<string> {
    if last.Some? && last.value.Sar? && 1 <= last.value.assignmentType <= 3 && last.value.server != ""
    then Some(last.value.server) else None
  }

  /** LIR for any of a subscriber's public identities, and UAR for one that is authorised, depend on the
      last effective request alone. */
  lemma AnswersFollowHistory(ops: seq<Op>, impi: string, impu: string, requested: string, network: string)
    requires AllSeparate(ops) && Account(ops, impi).Some? && impu in Account(ops, impi).value.impus
    ensures var last := LastEffective(ops, impi);
            LirAnswer(ByImpu(Run(ops), impu)) ==
            if NamedServer(last).Some? then Answer(2001, NamedServer(last)) else Answer(5003, None)
    ensures var last := LastEffective(ops, impi);
            IdentityFits(impi, requested) && RoamingFits(Account(ops, impi).value, network) ==>
              UarAnswer(ByImpu(Run(ops), impu), requested, network) ==
              if NamedServer(last).Some? && last.value.assignmentType != 3 then Answer(2002, NamedServer(last))
              else Answer(2001, None)
  {
    RunFollowsHistory(ops, impi);
    LookupFindsOwner(ops, impi, impu);
    LastEffectiveDecides(ops, impi);
    EffectiveTypes(ops, impi);
    hide Account, Run, AllSeparate, LastEffective, IdentityFits, RoamingFits, ByImpu;
  }

  lemma {:induction false} EffectiveTypes(ops: seq<Op>, impi: string)
    ensures LastEffective(ops, impi).Some? ==>
              var op := LastEffective(ops, impi).value;
              op == Rtr(impi) || (op.Sar? && 1 <= op.assignmentType <= 5)
  {
    if ops == [] {
    } else {
      EffectiveTypes(ops[..|ops| - 1], impi);
    }
  }

  /** On every run at all, a subscription is not registered exactly when no S-CSCF is stored, and LIR says
      so too exactly when the stored name is not the empty text. */
  lemma {:induction false} NotRegisteredMeansNoServer(ops: seq<Op>, impi: string)
    requires impi in Run(ops).subscriptions
    ensures var sub := Run(ops).subscriptions[impi];
            && (sub.state == NotRegistered <==> sub.scscf == None)
            && ((LirAnswer(Some(sub)).code == 5003 <==> sub.state == NotRegistered) <==> sub.scscf != Some(""))
  {
    if ops == [] {
    } else {
      var before, op := ops[..|ops| - 1], ops[|ops| - 1];
      forall i | i in Run(before).subscriptions ensures StateFitsServer(Run(before).subscriptions[i]) {
        NotRegisteredMeansNoServer(before, i);
      }
      StepFitsServer(Run(before), op);
    }
  }

  predicate StateFitsServer(sub: Subscription) { sub.state == NotRegistered <==> sub.scscf == None }

  lemma StepFitsServer(s: State, op: Op)
    requires forall i | i in s.subscriptions :: StateFitsServer(s.subscriptions[i])
    ensures forall i | i in Step(s, op).0.subscriptions :: StateFitsServer(Step(s, op).0.subscriptions[i])
  {
    hide Point;
  }

  /** After any run: a second subscription takes a public identity of the first and is deleted again. The
      first is as it was, registered or not, and no longer reachable by that identity. */
  lemma SharedIdentityIsLost(ops: seq<Op>, owner: string, b: Provision, u: string)
    requires AllSeparate(ops) && Account(ops, owner).Some? && u in Account(ops, owner).value.impus
    requires Account(ops, b.impi).None? && u in b.impus
    ensures ByImpu(Run(ops), u) == Account(ops, owner)
    ensures var after := Run(ops + [Create(b)] + [Delete(b.impi)]);
            Stored(after, owner) == Account(ops, owner) && ByImpu(after, u) == None
  {
    RunFollowsHistory(ops, owner);
    RunFollowsHistory(ops, b.impi);
    LookupFindsOwner(ops, owner, u);
    RunOneMore(ops, Create(b));
    RunOneMore(ops + [Create(b)], Delete(b.impi));
    hide Run, AllSeparate, Account, Consistent, AlwaysConsistent, Separate;
    var s := Run(ops);
    var s' := Run(ops + [Create(b)]);
    assert b.impi in s'.subscriptions && s'.subscriptions[b.impi] == Fresh(b) && b.impi != owner;
  }

  // ---------- what the requests answer ----------

  /** What the last create that counts provided for a private identity, unless it was deleted since. */
  function Provided(ops: seq<Op>, impi: string): Option<Provision> {
    if ops == [] then None
    else
      var before, op := Provided(ops[..|ops| - 1], impi), ops[|ops| - 1];
      if op == Delete(impi) then None
      else if op.Create? && op.provision.impi == impi && before.None? then Some(op.provision)
      else before
  }

  /** No request changes what a subscription was created with. */
  lemma {:induction false} ProvisionStays(ops: seq<Op>, impi: string)
    ensures Account(ops, impi).Some? <==> Provided(ops, impi).Some?
    ensures Account(ops, impi).Some? ==>
            var sub, p := Account(ops, impi).value, Provided(ops, impi).value;
            && sub.impi == p.impi == impi && sub.impus == p.impus
            && sub.roamingAllowed == p.roamingAllowed && sub.visited == p.visited
  {
    if ops == [] {
    } else {
      ProvisionStays(ops[..|ops| - 1], impi);
    }
  }

  /** UAR on every run, for a public identity that a subscription was created with. The private identity is refused
      first, then the visited network, each with its own code; otherwise the answer is the server of a last
      effective registration, or that there is none yet. */
  lemma UarAnswersExactly(ops: seq<Op>, impi: string, impu: string, requested: string, network: string)
    requires AllSeparate(ops) && Provided(ops, impi).Some? && impu in Provided(ops, impi).value.impus
    ensures var answer, p := UarAnswer(ByImpu(Run(ops), impu), requested, network), Provided(ops, impi).value;
            var last := LastEffective(ops, impi);
            && (answer == Answer(5002, None) <==>
                  impi != requested && '@' in requested && Domain(impi) != Domain(requested))
            && (answer == Answer(5004, None) <==>
                  answer.code != 5002 && network != "" && !p.roamingAllowed && network !in p.visited)
            && (answer.code in {5002, 5004} || answer ==
                if last.Some? && last.value.Sar? && last.value.assignmentType in {1, 2} && last.value.server != ""
                then Answer(2002, Some(last.value.server)) else Answer(2001, None))
  {
    ProvisionStays(ops, impi);
    RunFollowsHistory(ops, impi);
    LookupFindsOwner(ops, impi, impu);
    UarRefusesIdentityExactly(Run(ops), impu, requested, network);
    LastEffectiveDecides(ops, impi);
    EffectiveTypes(ops, impi);
    hide Account, Run, AllSeparate, LastEffective, ByImpu, Provided, Domain;
  }

  /** A public identity that no subscription was created with is unknown to UAR and LIR. */
  lemma StrangersAreUnknown(ops: seq<Op>, impu: string, requested: string, network: string)
    requires AllSeparate(ops)
    requires forall i | Provided(ops, i).Some? :: impu !in Provided(ops, i).value.impus
    ensures UarAnswer(ByImpu(Run(ops), impu), requested, network) == Answer(5001, None)
    ensures LirAnswer(ByImpu(Run(ops), impu)) == Answer(5001, None)
  {
    if ByImpu(Run(ops), impu).Some? {
      var i := Run(ops).impuToImpi[impu];
      RunFollowsHistory(ops, i);
      ProvisionStays(ops, i);
    }
  }

  /** When a request that changes the database fails, and that it then changes nothing. */
  lemma OutcomesExactly(s: State, op: Op)
    ensures var (s', outcome) := Step(s, op);
            && (outcome != Success ==> s' == s)
            && (outcome == AlreadyExists <==> op.Create? && op.provision.impi in s.subscriptions)
            && (outcome == UserUnknown <==>
                  ((op.Delete? || op.Rtr?) && op.impi !in s.subscriptions) || (op.Sar? && ByImpu(s, op.impu).None?))
            && (outcome == InvalidAssignmentType <==>
                  op.Sar? && ByImpu(s, op.impu).Some? && (op.assignmentType < 0 || op.assignmentType > 14))
  {}

  // ---------- the service ----------

  class HssDatabase {
    var subscriptions: map<string, Subscription>
    var impuToImpi: map<string, string>

    function View(): State reads this { State(subscriptions, impuToImpi) }

    constructor ()
      ensures View() == Empty()
    {
      subscriptions, impuToImpi := map[], map[];
    }

    method GetSubscriptionByImpu(impu: string) returns (sub: Option<Subscription>)
      ensures sub == ByImpu(View(), impu)
    {
      if impu !in impuToImpi { return None; }
      var impi := impuToImpi[impu];
      if impi != "" && impi in subscriptions { return Some(subscriptions[impi]); }
      sub := None;
    }

    method CreateSubscription(p: Provision) returns (outcome: Outcome)
      modifies this
      ensures (View(), outcome) == Step(old(View()), Create(p))
    {
      if p.impi in subscriptions { return AlreadyExists; }
      subscriptions := subscriptions[p.impi := Fresh(p)];
      var left := p.impus;
      ghost var before := impuToImpi;
      assert Point(before, {}, p.impi) == before && p.impus - left == {};
      while left != {}
        invariant left <= p.impus && subscriptions == old(subscriptions)[p.impi := Fresh(p)]
        invariant impuToImpi == Point(before, p.impus - left, p.impi)
        decreases left
      {
        var impu :| impu in left;
        impuToImpi := impuToImpi[impu := p.impi];
        left := left - {impu};
      }
      assert p.impus - {} == p.impus;
      outcome := Success;
    }

    method DeleteSubscription(impi: string) returns (outcome: Outcome)
      modifies this
      ensures (View(), outcome) == Step(old(View()), Delete(impi))
    {
      if impi !in subscriptions { return UserUnknown; }
      var impus := subscriptions[impi].impus;
      var left := impus;
      ghost var before := impuToImpi;
      while left != {}
        invariant left <= impus && subscriptions == old(subscriptions)
        invariant impuToImpi == before - (impus - left)
        decreases left
      {
        var impu :| impu in left;
        if impu in impuToImpi { impuToImpi := impuToImpi - {impu}; }
        left := left - {impu};
      }
      assert impus - {} == impus;
      subscriptions := subscriptions - {impi};
      outcome := Success;
    }

    method UserAuthorizationRequest(impu: string, impi: string, network: string) returns (answer: Answer)
      ensures answer == UarAnswer(ByImpu(View(), impu), impi, network)
    {
      var sub := GetSubscriptionByImpu(impu);
      if sub.None? { return Answer(5001, None); }
      if sub.value.impi != impi {
        if impi != "" && '@' in impi {
          var domain := if '@' in sub.value.impi then Domain(sub.value.impi) else "";
          DomainWithoutAt(sub.value.impi);
          if domain != Domain(impi) { return Answer(5002, None); }
        }
      }
      if network != "" && !sub.value.roamingAllowed {
        if network !in sub.value.visited { return Answer(5004, None); }
      }
      if sub.value.scscf.Some? && sub.value.scscf.value != "" && sub.value.state == Registered {
        return Answer(2002, sub.value.scscf);
      }
      answer := Answer(2001, None);
    }

    method LocationInfoRequest(impu: string) returns (answer: Answer)
      ensures answer == LirAnswer(ByImpu(View(), impu))
    {
      var sub := GetSubscriptionByImpu(impu);
      if sub.None? { return Answer(5001, None); }
      if sub.value.scscf.None? || sub.value.scscf.value == "" { return Answer(5003, None); }
      answer := Answer(2001, sub.value.scscf);
    }

    method ServerAssignmentRequest(impu: string, assignmentType: int, server: string) returns (outcome: Outcome)
      modifies this
      ensures (View(), outcome) == Step(old(View()), Sar(impu, assignmentType, server))
    {
      var found := GetSubscriptionByImpu(impu);
      if found.None? { return UserUnknown; }
      if !(0 <= assignmentType <= 14) { return InvalidAssignmentType; }
      var sub := found.value;
      if assignmentType in {1, 2} {
        sub := sub.(scscf := Some(server), state := Registered);
      } else if assignmentType == 5 {
        sub := sub.(state := NotRegistered, scscf := None);
      } else if assignmentType == 4 {
        sub := sub.(state := NotRegistered, scscf := None);
      } else if assignmentType == 3 {
        sub := sub.(scscf := Some(server), state := Unregistered);
      }
      subscriptions := subscriptions[sub.impi := sub];
      outcome := Success;
    }

    method RegistrationTerminationRequest(impi: string) returns (outcome: Outcome)
      modifies this
      ensures (View(), outcome) == Step(old(View()), Rtr(impi))
    {
      if impi !in subscriptions { return UserUnknown; }
      subscriptions := subscriptions[impi := subscriptions[impi].(state := NotRegistered, scscf := None)];
      outcome := Success;
    }
  }

  lemma {:induction false} DomainWithoutAt(identity: string)
    ensures '@' !in identity ==> Domain(identity) == ""
  {
    if identity == "" {
    } else {
      DomainWithoutAt(identity[1..]);
    }
  }
}
