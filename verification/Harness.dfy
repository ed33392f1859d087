/** The agent harness: router, sandbox, guardrail, walker and the taxonomy graph
    (harness/runtime/router.py, guardrail.py, walker.py and taxonomy_graph.py). The YAML and JSON tables,
    the O2 IMS stub and the ambiguity resolver are parameters. */
module Harness {
  import opened Common

  // ---------- tables ----------

  datatype Entry = Entry(id: string, layer: string)

  datatype DeliveryPath = DeliveryPath(actionType: string, ocloudInternal: string)

  datatype Blast = Blast(nodes: int, sites: int, cells: int)

  datatype Verdict = Verdict(applyAllowed: bool, rationale: string)

  datatype Stub = Stub(
    proposalId: Option<string>, signals: seq<string>, actionTarget: string, payloadRef: string, blast: Option<Blast>,
    deployOutcome: Option<string>, smoOutcome: Option<string>, verdict: Option<Verdict>,
    reversibility: Option<string>, eventTime: Option<string>)

  datatype Policy = Policy(allowlist: set<string>, maxNodes: int, maxSites: int, maxCells: int,
      requireApproval: set<string>)

  datatype DeployRequest = DeployRequest(
    faultId: string, actionType: string, actionTarget: string, ocloudPath: string, outcome: Option<string>)

  datatype Tables = Tables(
    taxonomy: map<string, Entry>, deliveryPaths: map<string, DeliveryPath>, stubs: map<string, Stub>, policy: Policy,
    crisis: bool, deploy: DeployRequest -> string)

  // ---------- artifacts ----------

  datatype Candidate = Candidate(taxonomyMatch: string, targetLayer: Option<string>, confidence: real,
      entry: Option<Entry>)

  datatype Rca = Rca(faultId: string, candidates: seq<Candidate>)

  datatype Intent = Intent(id: string, affected: seq<string>, dispatchResult: Option<string>)

  /** A remediation proposal: the keys of the dictionary, those that may be missing as options. */
  datatype Proposal = Proposal(
    proposalId: string, targetLayer: string, confidence: real, taxonomyMatch: string, signals: seq<string>,
    actionTarget: string, payloadRef: string, dryRun: bool, requiresHumanApproval: bool, approvalStatus: string,
    actionType: string, ocloudPath: string, dispatch: Option<string>, companion: Option<Intent>,
    verdict: Option<Verdict>, guardrailBlast: Option<Blast>, reversibility: Option<string>)

  datatype Audit = Audit(eventId: string, eventTime: string, faultId: string, remediation: Proposal)

  datatype Failure =
    | NoCandidates | UnknownMatch | LayerMismatch | UnknownLayer | NoDeliveryPath | AmbiguousPath | ResolverFailure
    | NoVerdict | CrisisMode | ApplyNotAllowed | ActionNotAllowed | NoStub | BlastExceeded | ApprovalMissing
    | MissingField

  // ---------- the router ----------

  function BlankStub(): Stub { Stub(None, [], "", "", None, None, None, None, None, None) }

  function StubOf(t: Tables, faultId: string): Stub { if faultId in t.stubs then t.stubs[faultId] else BlankStub() }

  function DefaultId(faultId: string): string { "prop-" + if |faultId| >= 4 then faultId[4..] else "" }

  function Draft(t: Tables, faultId: string, top: Candidate, layer: string): Proposal {
    var stub := StubOf(t, faultId);
    Proposal(if stub.proposalId.Some? then stub.proposalId.value else DefaultId(faultId), layer, top.confidence,
             top.taxonomyMatch, stub.signals, stub.actionTarget, stub.payloadRef, true, true, "pending",
             "", "", None, None, None, None, None)
  }

  /** A node firmware action that reaches a node comes with an intent for the partner SMO. */
  function Companion(t: Tables, faultId: string, p: Proposal): Option<Intent> {
    var stub := StubOf(t, faultId);
    if p.taxonomyMatch != "node_firmware" || stub.blast.None? || stub.blast.value.nodes < 1 then None
    else Some(Intent("INT-" + faultId + "-companion", [p.actionTarget], stub.smoOutcome))
  }

  function WithCompanion(t: Tables, faultId: string, p: Proposal): Proposal {
    p.(companion := Companion(t, faultId, p))
  }

  function RouteTo(t: Tables, rca: Rca): Result<Proposal, Failure> {
    if rca.candidates == [] then Err(NoCandidates) else
    var top := rca.candidates[0];
    if top.targetLayer.None? then Err(UnknownLayer) else
    var layer := top.targetLayer.value;
    var p := Draft(t, rca.faultId, top, layer);
    if layer == "infra" then
      if top.taxonomyMatch !in t.deliveryPaths then Err(NoDeliveryPath)
      else
        var path := t.deliveryPaths[top.taxonomyMatch];
        var request := DeployRequest(rca.faultId, path.actionType, p.actionTarget, path.ocloudInternal,
                                     StubOf(t, rca.faultId).deployOutcome);
        Ok(WithCompanion(t, rca.faultId,
             p.(actionType := path.actionType, ocloudPath := path.ocloudInternal, dispatch := Some(t.deploy(request)))))
    else if layer == "service" then
      Ok(WithCompanion(t, rca.faultId, p.(actionType := "emit_smo_intent", ocloudPath := "smo-tmf921-endpoint")))
    else if layer == "ambiguous" then Err(AmbiguousPath)
    else Err(UnknownLayer)
  }

  // ---------- sandbox and guardrail ----------

  function Simulated(t: Tables, p: Proposal, faultId: string): Result<Proposal, Failure> {
    var verdict := StubOf(t, faultId).verdict;
    if verdict.None? then Err(NoVerdict) else Ok(p.(verdict := verdict))
  }

  predicate WithinCaps(policy: Policy, b: Blast) {
    b.nodes <= policy.maxNodes && b.sites <= policy.maxSites && b.cells <= policy.maxCells
  }

  /** The first gate that holds the proposal back. */
  function Held(t: Tables, p: Proposal, faultId: string): Option<Failure> {
    if t.crisis then Some(CrisisMode)
    else if p.verdict.None? then Some(NoVerdict)
    else if !p.verdict.value.applyAllowed then Some(ApplyNotAllowed)
    else if p.actionType !in t.policy.allowlist then Some(ActionNotAllowed)
    else if faultId !in t.stubs then Some(NoStub)
    else if t.stubs[faultId].blast.None? then Some(MissingField)
    else if !WithinCaps(t.policy, t.stubs[faultId].blast.value) then Some(BlastExceeded)
    else if p.actionType in t.policy.requireApproval && !p.requiresHumanApproval then Some(ApprovalMissing)
    else None
  }

  /** The proposal afterwards, and the audit event. A missing rollback profile or time is noticed only
      after the proposal has been written to. */
  function Evaluated(t: Tables, p: Proposal, faultId: string): (Proposal, Result<Audit, Failure>) {
    var held := Held(t, p, faultId);
    if held.Some? then (p, Err(held.value)) else
    var stub := StubOf(t, faultId);
    var passed := p.(guardrailBlast := stub.blast);
    if stub.reversibility.None? then (passed, Err(MissingField)) else
    var complete := passed.(reversibility := stub.reversibility);
    if stub.eventTime.None? then (complete, Err(MissingField))
    else (complete, Ok(Audit("evt-" + faultId + "-001", stub.eventTime.value, faultId, complete)))
  }

  /** Router, sandbox and guardrail in a row, as the walker runs them. */
  function Walked(t: Tables, rca: Rca): Result<Audit, Failure> {
    match RouteTo(t, rca)
    case Err(e) => Err(e)
    case Ok(routed) =>
      match Simulated(t, routed, rca.faultId)
      case Err(e) => Err(e)
      case Ok(simulated) => Evaluated(t, simulated, rca.faultId).1
  }

  // ---------- the graph ----------

  datatype Node = LoadTaxonomy | Classify | Ambiguity | Route | Sandbox | Guardrail

  datatype Status = Running | BlockedAmbiguous | Complete

  datatype GraphState = GraphState(
    rca: Rca, taxonomy: map<string, Entry>, classification: Option<Candidate>, ambiguityRequired: bool,
    ambiguityStatus: string, hint: string, proposal: Option<Proposal>, audit: Option<Audit>, trace: seq<Node>,
    status: Status)

  /** What a node makes of the state, or the error it raises. */
  type Nodes = (Node, GraphState) -> Result<GraphState, Failure>

  /** The resolver's text, or why there is none; its own "not implemented" text counts as text. */
  type Resolver = Rca -> Result<string, Failure>

  function Start(rca: Rca): GraphState { GraphState(rca, map[], None, false, "", "", None, None, [], Running) }

  function Normalize(rca: Rca, taxonomy: map<string, Entry>): Result<Rca, Failure> {
    if rca.candidates == [] then Err(NoCandidates) else
    var top := rca.candidates[0];
    if top.taxonomyMatch !in taxonomy then Err(UnknownMatch) else
    var entry := taxonomy[top.taxonomyMatch];
    if top.targetLayer.Some? && top.targetLayer.value != entry.layer then Err(LayerMismatch)
    else Ok(rca.(candidates := rca.candidates[0 := top.(targetLayer := Some(entry.layer), entry := Some(entry))]))
  }

  function NodeStep(t: Tables, resolver: Resolver, node: Node, s: GraphState): Result<GraphState, Failure> {
    var traced := s.(trace := s.trace + [node]);
    match node
    case LoadTaxonomy => Ok(traced.(taxonomy := t.taxonomy))
    case Classify =>
      (match Normalize(s.rca, s.taxonomy)
       case Err(e) => Err(e)
       case Ok(rca) =>
         if rca.candidates == [] then Err(NoCandidates)
         else Ok(traced.(rca := rca, classification := Some(rca.candidates[0]),
                         ambiguityRequired := rca.candidates[0].targetLayer == Some("ambiguous"))))
    case Ambiguity =>
      if !s.ambiguityRequired then Ok(traced.(ambiguityStatus := "not_required"))
      else
        (match resolver(s.rca)
         case Err(e) => Err(e)
         case Ok(hint) =>
           Ok(traced.(ambiguityStatus := "blocked_for_human_review", hint := hint, status := BlockedAmbiguous)))
    case Route =>
      (match RouteTo(t, s.rca) case Err(e) => Err(e) case Ok(p) => Ok(traced.(proposal := Some(p))))
    case Sandbox =>
      if s.proposal.None? then Err(MissingField)
      else (match Simulated(t, s.proposal.value, s.rca.faultId)
            case Err(e) => Err(e)
            case Ok(p) => Ok(traced.(proposal := Some(p))))
    case Guardrail =>
      if s.proposal.None? then Err(MissingField)
      else
        var (p, audit) := Evaluated(t, s.proposal.value, s.rca.faultId);
        (match audit
         case Err(e) => Err(e)
         case Ok(a) => Ok(traced.(proposal := Some(p), audit := Some(a), status := Complete)))
  }

  function NodesOf(t: Tables, resolver: Resolver): Nodes { (node, s) => NodeStep(t, resolver, node, s) }

  // ---------- the two runners ----------

  function RunAll(nodes: Nodes, order: seq<Node>, s: GraphState): Result<GraphState, Failure> {
    if order == [] then Ok(s)
    else
      match nodes(order[0], s)
      case Err(e) => Err(e)
      case Ok(next) => RunAll(nodes, order[1..], next)
  }

  /** The sequential runner: the two first nodes, the ambiguity boundary if it is asked for, the rest. */
  function Sequential(nodes: Nodes, s: GraphState): Result<GraphState, Failure> {
    match RunAll(nodes, [LoadTaxonomy, Classify], s)
    case Err(e) => Err(e)
    case Ok(classified) =>
      if !classified.ambiguityRequired then RunAll(nodes, [Route, Sandbox, Guardrail], classified)
      else
        match nodes(Ambiguity, classified)
        case Err(e) => Err(e)
        case Ok(looked) =>
          if looked.status == BlockedAmbiguous then Ok(looked) else RunAll(nodes, [Route, Sandbox, Guardrail], looked)
  }

  /** The declared edges: where the graph goes after a node, or nowhere at the end. */
  function Next(node: Node, s: GraphState): Option<Node> {
    match node
    case LoadTaxonomy => Some(Classify)
    case Classify => if s.ambiguityRequired then Some(Ambiguity) else Some(Route)
    case Ambiguity => if s.status == BlockedAmbiguous then None else Some(Route)
    case Route => Some(Sandbox)
    case Sandbox => Some(Guardrail)
    case Guardrail => None
  }

  function StagesLeft(node: Node): nat {
    match node
    case LoadTaxonomy => 5 case Classify => 4 case Ambiguity => 3 case Route => 2 case Sandbox => 1 case Guardrail => 0
  }

  /** The compiled graph: run a node, follow its edge. */
  function FollowEdges(nodes: Nodes, node: Node, s: GraphState): Result<GraphState, Failure>
    decreases StagesLeft(node)
  {
    match nodes(node, s)
    case Err(e) => Err(e)
    case Ok(after) =>
      match Next(node, after)
      case None => Ok(after)
      case Some(next) => FollowEdges(nodes, next, after)
  }

  lemma TailFollowsEdges(nodes: Nodes, s: GraphState)
    ensures RunAll(nodes, [Route, Sandbox, Guardrail], s) == FollowEdges(nodes, Route, s)
  {
    assert [Route, Sandbox, Guardrail][1..] == [Sandbox, Guardrail];
    assert [Sandbox, Guardrail][1..] == [Guardrail];
    assert [Guardrail][1..] == [];
    match nodes(Route, s)
    case Err(_) =>
    case Ok(routed) =>
      match nodes(Sandbox, routed)
      case Err(_) =>
      case Ok(simulated) =>
        assert RunAll(nodes, [Guardrail], simulated) == FollowEdges(nodes, Guardrail, simulated);
  }

  /** Whatever the nodes do, the sequential runner ends in the same state or error as following the edges. */
  lemma SequentialFollowsEdges(nodes: Nodes, s: GraphState)
    ensures Sequential(nodes, s) == FollowEdges(nodes, LoadTaxonomy, s)
  {
    assert [LoadTaxonomy, Classify][1..] == [Classify];
    assert [Classify][1..] == [];
    match nodes(LoadTaxonomy, s)
    case Err(_) =>
    case Ok(loaded) =>
      assert RunAll(nodes, [LoadTaxonomy, Classify], s) == RunAll(nodes, [Classify], loaded);
      match nodes(Classify, loaded)
      case Err(e) =>
        assert RunAll(nodes, [Classify], loaded) == Err(e);
      case Ok(classified) =>
        assert RunAll(nodes, [Classify], loaded) == Ok(classified);
        TailFollowsEdges(nodes, classified);
        if nodes(Ambiguity, classified).Ok? { TailFollowsEdges(nodes, nodes(Ambiguity, classified).value); }
  }

  // ---------- what comes out ----------

  /** The RCA names a layer and the taxonomy has the same for its match. */
  predicate AgreesWith(rca: Rca, taxonomy: map<string, Entry>) {
    && rca.candidates != [] && rca.candidates[0].taxonomyMatch in taxonomy
    && rca.candidates[0].targetLayer == Some(taxonomy[rca.candidates[0].taxonomyMatch].layer)
  }

  /** The layer that the taxonomy gives to the top candidate, if the RCA may be classified at all. */
  function Canonical(rca: Rca, taxonomy: map<string, Entry>): Option<string> {
    match Normalize(rca, taxonomy)
    case Err(_) => None
    case Ok(n) => Some(taxonomy[rca.candidates[0].taxonomyMatch].layer)
  }

  /** The state after the first two nodes. */
  function Classified(t: Tables, rca: Rca, normalized: Rca): GraphState
    requires normalized.candidates != []
  {
    Start(rca).(taxonomy := t.taxonomy, trace := [LoadTaxonomy, Classify], rca := normalized,
                classification := Some(normalized.candidates[0]),
                ambiguityRequired := normalized.candidates[0].targetLayer == Some("ambiguous"))
  }

  lemma FirstTwoNodes(t: Tables, resolver: Resolver, rca: Rca)
    ensures var nodes := NodesOf(t, resolver);
            RunAll(nodes, [LoadTaxonomy, Classify], Start(rca)) ==
            match Normalize(rca, t.taxonomy) case Err(e) => Err(e) case Ok(n) => Ok(Classified(t, rca, n))
  {
    var nodes := NodesOf(t, resolver);
    assert [LoadTaxonomy, Classify][1..] == [Classify];
    assert [Classify][1..] == [];
    var loaded := Start(rca).(trace := [] + [LoadTaxonomy], taxonomy := t.taxonomy);
    assert nodes(LoadTaxonomy, Start(rca)) == Ok(loaded);
    assert RunAll(nodes, [LoadTaxonomy, Classify], Start(rca)) == RunAll(nodes, [Classify], loaded);
    assert loaded.trace + [Classify] == [LoadTaxonomy, Classify];
    match Normalize(rca, t.taxonomy)
    case Err(e) => assert nodes(Classify, loaded) == Err(e);
    case Ok(n) =>
      assert nodes(Classify, loaded) == NodeStep(t, resolver, Classify, loaded);
      assert nodes(Classify, loaded) == Ok(Classified(t, rca, n));
      assert RunAll(nodes, [Classify], loaded) == RunAll(nodes, [], Classified(t, rca, n));
  }

  /** The last three nodes end where the walker ends, with the same audit event or the same error. */
  lemma LastThreeNodes(t: Tables, resolver: Resolver, s: GraphState)
    ensures var result := RunAll(NodesOf(t, resolver), [Route, Sandbox, Guardrail], s);
            match Walked(t, s.rca)
            case Err(e) => result == Err(e)
            case Ok(audit) =>
              result == Ok(s.(proposal := Some(audit.remediation), audit := Some(audit), status := Complete,
                              trace := s.trace + [Route, Sandbox, Guardrail]))
  {
    hide RouteTo, Simulated, Held;
    var nodes := NodesOf(t, resolver);
    TailFollowsEdges(nodes, s);
    match RouteTo(t, s.rca)
    case Err(e) => assert nodes(Route, s) == Err(e);
    case Ok(p) =>
      var routed := s.(trace := s.trace + [Route], proposal := Some(p));
      assert nodes(Route, s) == Ok(routed);
      match Simulated(t, p, s.rca.faultId)
      case Err(e) => assert nodes(Sandbox, routed) == Err(e);
      case Ok(q) =>
        var simulated := routed.(trace := routed.trace + [Sandbox], proposal := Some(q));
        assert nodes(Sandbox, routed) == Ok(simulated);
        assert s.trace + [Route] + [Sandbox] + [Guardrail] == s.trace + [Route, Sandbox, Guardrail];
        match Evaluated(t, q, s.rca.faultId).1
        case Err(e) => assert nodes(Guardrail, simulated) == Err(e);
        case Ok(a) => assert a.remediation == Evaluated(t, q, s.rca.faultId).0;
  }

  /** Normalizing an RCA changes nothing that the router reads, when the two agree. */
  lemma AgreedRoute(t: Tables, rca: Rca, normalized: Rca)
    requires AgreesWith(rca, t.taxonomy) && Normalize(rca, t.taxonomy) == Ok(normalized)
    ensures RouteTo(t, normalized) == RouteTo(t, rca) && normalized.faultId == rca.faultId
  {
    hide Companion, StubOf, DefaultId;
    assert normalized.candidates[0] == rca.candidates[0].(entry := normalized.candidates[0].entry);
    assert Draft(t, rca.faultId, normalized.candidates[0], "") == Draft(t, rca.faultId, rca.candidates[0], "");
  }

  /** For an RCA that agrees with the taxonomy and is not ambiguous, the graph ends with the walker's audit
      event, about the proposal in its state and after five stages, or with the walker's error. */
  lemma GraphEqualsWalker(t: Tables, resolver: Resolver, rca: Rca)
    requires AgreesWith(rca, t.taxonomy) && rca.candidates[0].targetLayer != Some("ambiguous")
    ensures var result := Sequential(NodesOf(t, resolver), Start(rca));
            match Walked(t, rca)
            case Err(e) => result == Err(e)
            case Ok(audit) =>
              result.Ok? && result.value.audit == Some(audit) && result.value.proposal == Some(audit.remediation) &&
              result.value.status == Complete &&
                result.value.trace == [LoadTaxonomy, Classify, Route, Sandbox, Guardrail]
  {
    hide RouteTo, Simulated, Evaluated;
    var n := Normalize(rca, t.taxonomy).value;
    FirstTwoNodes(t, resolver, rca);
    AgreedRoute(t, rca, n);
    assert Walked(t, n) == Walked(t, rca);
    LastThreeNodes(t, resolver, Classified(t, rca, n));
    assert [LoadTaxonomy, Classify] + [Route, Sandbox, Guardrail] ==
      [LoadTaxonomy, Classify, Route, Sandbox, Guardrail];
    hide Walked, NodesOf, RunAll, Normalize;
  }

  /** Where the RCA names no candidate, an unknown match or another layer, the graph stops before it routes. */
  lemma GraphRefuses(t: Tables, resolver: Resolver, rca: Rca)
    ensures Canonical(rca, t.taxonomy).None? <==>
            rca.candidates == [] || rca.candidates[0].taxonomyMatch !in t.taxonomy ||
            (rca.candidates[0].targetLayer.Some? &&
             rca.candidates[0].targetLayer.value != t.taxonomy[rca.candidates[0].taxonomyMatch].layer)
    ensures Canonical(rca, t.taxonomy).None? ==>
            Sequential(NodesOf(t, resolver), Start(rca)) ==
            Err(if rca.candidates == [] then NoCandidates
                else if rca.candidates[0].taxonomyMatch !in t.taxonomy then UnknownMatch else LayerMismatch)
  {
    FirstTwoNodes(t, resolver, rca);
    hide NodesOf, RunAll;
  }

  /** The ambiguous path never acts: whatever the resolver answers, it ends in its error or in a blocked
      state, after three stages and without a proposal or an audit event. The walker fails as well. */
  lemma AmbiguousNeverActs(t: Tables, resolver: Resolver, rca: Rca)
    requires Canonical(rca, t.taxonomy) == Some("ambiguous")
    ensures var result := Sequential(NodesOf(t, resolver), Start(rca));
            result.Ok? ==> result.value.proposal == None && result.value.audit == None &&
                           result.value.status == BlockedAmbiguous &&
                             result.value.ambiguityStatus == "blocked_for_human_review" &&
                             result.value.trace == [LoadTaxonomy, Classify, Ambiguity]
    ensures var asked := resolver(Normalize(rca, t.taxonomy).value);
            var result := Sequential(NodesOf(t, resolver), Start(rca));
            if asked.Err? then result == Err(asked.error) else result.Ok? && result.value.hint == asked.value
    ensures Walked(t, rca).Err?
  {
    FirstTwoNodes(t, resolver, rca);
    var n := Normalize(rca, t.taxonomy).value;
    var s := Classified(t, rca, n);
    assert s.ambiguityRequired;
    assert [LoadTaxonomy, Classify] + [Ambiguity] == [LoadTaxonomy, Classify, Ambiguity];
    var nodes := NodesOf(t, resolver);
    assert nodes(Ambiguity, s) == NodeStep(t, resolver, Ambiguity, s);
    assert RouteTo(t, rca).Err?;
    hide NodesOf, RunAll, Normalize, RouteTo;
  }

  /** Every gate that a proposal has passed when there is an audit event. */
  predicate AllGatesPassed(t: Tables, audit: Audit) {
    var p := audit.remediation;
    && !t.crisis && p.verdict.Some? && p.verdict.value.applyAllowed && p.actionType in t.policy.allowlist
    && audit.faultId in t.stubs && t.stubs[audit.faultId].blast.Some? &&
       WithinCaps(t.policy, t.stubs[audit.faultId].blast.value)
    && p.guardrailBlast == t.stubs[audit.faultId].blast && p.reversibility == t.stubs[audit.faultId].reversibility
    && p.reversibility.Some?
  }

  /** The guardrail passes a proposal exactly when every gate holds and the stub is complete; it then writes
      its two results into that proposal and changes nothing else. */
  lemma GuardrailIsExact(t: Tables, p: Proposal, faultId: string)
    ensures var (after, audit) := Evaluated(t, p, faultId);
            audit.Ok? <==>
            && !t.crisis && p.verdict.Some? && p.verdict.value.applyAllowed && p.actionType in t.policy.allowlist
            && faultId in t.stubs && t.stubs[faultId].blast.Some? && WithinCaps(t.policy, t.stubs[faultId].blast.value)
            && (p.actionType in t.policy.requireApproval ==> p.requiresHumanApproval)
            && t.stubs[faultId].reversibility.Some? && t.stubs[faultId].eventTime.Some?
    ensures var (after, audit) := Evaluated(t, p, faultId);
            after.(guardrailBlast := p.guardrailBlast, reversibility := p.reversibility) == p &&
            (audit.Ok? ==>
               audit.value.remediation == after && audit.value.faultId == faultId && AllGatesPassed(t, audit.value))
  {
    hide WithinCaps;
  }

  lemma RoutedIsSafe(t: Tables, rca: Rca)
    ensures RouteTo(t, rca).Ok? ==>
              var p := RouteTo(t, rca).value;
              p.dryRun && p.requiresHumanApproval && p.approvalStatus == "pending" &&
                p.targetLayer in {"infra", "service"} &&
              rca.candidates != [] && p.taxonomyMatch == rca.candidates[0].taxonomyMatch
  {
    hide Companion, StubOf, DefaultId;
  }

  /** Safety of the whole pipeline: any audit event, from the graph or the walker, is about a dry run that
      waits for a human, and has passed every gate. */
  lemma AuditIsSafe(t: Tables, rca: Rca)
    ensures Walked(t, rca).Ok? ==>
              var audit := Walked(t, rca).value;
              var p := audit.remediation;
              p.dryRun && p.requiresHumanApproval && p.approvalStatus == "pending" &&
                p.targetLayer in {"infra", "service"} &&
              audit.faultId == rca.faultId && AllGatesPassed(t, audit)
  {
    RoutedIsSafe(t, rca);
    hide RouteTo, AllGatesPassed, Evaluated;
    if RouteTo(t, rca).Ok? {
      var routed := RouteTo(t, rca).value;
      if Simulated(t, routed, rca.faultId).Ok? {
        GuardrailIsExact(t, Simulated(t, routed, rca.faultId).value, rca.faultId);
      }
    }
  }

  lemma GraphAuditIsSafe(t: Tables, resolver: Resolver, rca: Rca)
    ensures var result := Sequential(NodesOf(t, resolver), Start(rca));
            result.Ok? && result.value.audit.Some? ==>
              var audit := result.value.audit.value;
              var p := audit.remediation;
              && p.dryRun && p.requiresHumanApproval && p.approvalStatus == "pending" &&
                 p.targetLayer in {"infra", "service"}
              && audit.faultId == rca.faultId && AllGatesPassed(t, audit) && result.value.proposal == Some(p)
              && Canonical(rca, t.taxonomy) == Some(p.targetLayer)
  {
    FirstTwoNodes(t, resolver, rca);
    var normalized := Normalize(rca, t.taxonomy);
    if normalized.Ok? {
      var n := normalized.value;
      var s := Classified(t, rca, n);
      if Canonical(rca, t.taxonomy) == Some("ambiguous") {
        AmbiguousNeverActs(t, resolver, rca);
      } else {
        assert !s.ambiguityRequired;
        LastThreeNodes(t, resolver, s);
        AuditIsSafe(t, n);
        AuditHasLayer(t, n);
        hide Walked, NodesOf, RunAll, AllGatesPassed;
      }
    }
  }

  lemma AuditHasLayer(t: Tables, rca: Rca)
    ensures Walked(t, rca).Ok? ==>
            rca.candidates != [] && rca.candidates[0].targetLayer == Some(Walked(t, rca).value.remediation.targetLayer)
  {
    hide Companion, StubOf, DefaultId, Held;
  }

  // ---------- where the two runners part ----------

  lemma WalkedLayer(t: Tables, rca: Rca)
    ensures Walked(t, rca).Ok? ==>
              rca.candidates != [] && rca.candidates[0].targetLayer.Some? &&
                rca.candidates[0].targetLayer.value in {"infra", "service"}
  {
    AuditHasLayer(t, rca);
    AuditIsSafe(t, rca);
    hide Walked, AllGatesPassed;
  }

  /** When the walker acts, the graph ends with the same audit event exactly when the taxonomy knows the match
      and gives it the layer that the RCA claims; otherwise it has stopped before routing. */
  lemma WalkerActsWhereGraphDoes(t: Tables, resolver: Resolver, rca: Rca)
    requires Walked(t, rca).Ok?
    ensures var result := Sequential(NodesOf(t, resolver), Start(rca));
            (result.Ok? && result.value.audit == Some(Walked(t, rca).value)) <==> AgreesWith(rca, t.taxonomy)
    ensures !AgreesWith(rca, t.taxonomy) ==> Sequential(NodesOf(t, resolver), Start(rca)).Err?
  {
    WalkedLayer(t, rca);
    GraphRefuses(t, resolver, rca);
    if AgreesWith(rca, t.taxonomy) {
      GraphEqualsWalker(t, resolver, rca);
    } else {
      assert Canonical(rca, t.taxonomy).None?;
    }
    hide Walked, NodesOf, Sequential;
  }

  /** When the graph acts, the walker ends with the same audit event exactly when the RCA names a layer at
      all: the graph takes a missing one from the taxonomy, the walker fails. */
  lemma GraphActsWhereWalkerDoes(t: Tables, resolver: Resolver, rca: Rca, s: GraphState)
    requires Sequential(NodesOf(t, resolver), Start(rca)) == Ok(s) && s.audit.Some?
    ensures rca.candidates != []
    ensures Walked(t, rca) == Ok(s.audit.value) <==> rca.candidates[0].targetLayer.Some?
  {
    GraphRefuses(t, resolver, rca);
    assert Canonical(rca, t.taxonomy).Some?;
    WalkedLayer(t, rca);
    if rca.candidates[0].targetLayer.Some? {
      assert AgreesWith(rca, t.taxonomy);
      if rca.candidates[0].targetLayer == Some("ambiguous") {
        AmbiguousNeverActs(t, resolver, rca);
      } else {
        GraphEqualsWalker(t, resolver, rca);
      }
    }
    hide Walked, NodesOf, Sequential;
  }

  /** What the walker asks of the tables to act on a claimed service fault: nothing of the taxonomy. */
  predicate ServiceWouldPass(t: Tables, faultId: string) {
    && !t.crisis && faultId in t.stubs && "emit_smo_intent" in t.policy.allowlist
    && var stub := t.stubs[faultId];
    && stub.verdict.Some? && stub.verdict.value.applyAllowed && stub.blast.Some? &&
       WithinCaps(t.policy, stub.blast.value)
    && stub.reversibility.Some? && stub.eventTime.Some?
  }

  /** A claimed service fault with a match that the taxonomy does not know always stops the graph; the walker
      acts on it exactly when the stub and the policy let any service fault through. */
  lemma WalkerIgnoresTaxonomy(t: Tables, resolver: Resolver, rca: Rca)
    requires rca.candidates != [] && rca.candidates[0].targetLayer == Some("service") &&
             rca.candidates[0].taxonomyMatch !in t.taxonomy
    ensures Sequential(NodesOf(t, resolver), Start(rca)) == Err(UnknownMatch)
    ensures Walked(t, rca).Ok? <==> ServiceWouldPass(t, rca.faultId)
  {
    GraphRefuses(t, resolver, rca);
    ServiceRoute(t, rca);
    hide NodesOf, RunAll, Sequential, RouteTo;
    var routed := RouteTo(t, rca).value;
    if Simulated(t, routed, rca.faultId).Ok? {
      GuardrailIsExact(t, Simulated(t, routed, rca.faultId).value, rca.faultId);
    }
    hide Evaluated, WithinCaps;
  }

  lemma ServiceRoute(t: Tables, rca: Rca)
    requires rca.candidates != [] && rca.candidates[0].targetLayer == Some("service")
    ensures RouteTo(t, rca).Ok? && RouteTo(t, rca).value.actionType == "emit_smo_intent" &&
            RouteTo(t, rca).value.requiresHumanApproval
  {
    hide Companion, StubOf, DefaultId;
  }

  /** Such tables and such an RCA exist: the taxonomy is empty and the walker still emits an audit event. */
  lemma WalkerActsAlone(resolver: Resolver) returns (t: Tables, rca: Rca)
    ensures Walked(t, rca).Ok? && Sequential(NodesOf(t, resolver), Start(rca)) == Err(UnknownMatch)
  {
    var stub := Stub(None, [], "cell/1", "", Some(Blast(0, 0, 1)), None, None, Some(Verdict(true, "")), Some("full"),
                     Some("now"));
    t := Tables(map[], map[], map["flt-1" := stub], Policy({"emit_smo_intent"}, 1, 1, 1, {}), false, _ => "");
    rca := Rca("flt-1", [Candidate("unheard_of", Some("service"), 1.0, None)]);
    assert ServiceWouldPass(t, rca.faultId);
    WalkerIgnoresTaxonomy(t, resolver, rca);
    hide Walked, NodesOf, Sequential;
  }

  // ---------- what an audit event says, and why there is none ----------

  /** The router knows where to send the fault: to the service layer, or to the infrastructure by a known path. */
  predicate Routable(t: Tables, rca: Rca) {
    && rca.candidates != []
    && (rca.candidates[0].targetLayer == Some("service") ||
        (rca.candidates[0].targetLayer == Some("infra") && rca.candidates[0].taxonomyMatch in t.deliveryPaths))
  }

  function ActionOf(t: Tables, top: Candidate): string {
    if top.targetLayer == Some("infra") && top.taxonomyMatch in t.deliveryPaths
    then t.deliveryPaths[top.taxonomyMatch].actionType else "emit_smo_intent"
  }

  /** Every field of the proposal that leaves the router: of the fault's stub, or blank without one, of the top
      candidate, or of the path it takes. */
  predicate RoutedAs(t: Tables, rca: Rca, p: Proposal)
    requires Routable(t, rca)
  {
    var known, top := rca.faultId in t.stubs, rca.candidates[0];
    && p.proposalId == (if known && t.stubs[rca.faultId].proposalId.Some? then t.stubs[rca.faultId].proposalId.value
                        else if |rca.faultId| < 4 then "prop-" else "prop-" + rca.faultId[4..])
    && Some(p.targetLayer) == top.targetLayer && p.confidence == top.confidence && p.taxonomyMatch == top.taxonomyMatch
    && p.signals == (if known then t.stubs[rca.faultId].signals else [])
    && p.actionTarget == (if known then t.stubs[rca.faultId].actionTarget else "")
    && p.payloadRef == (if known then t.stubs[rca.faultId].payloadRef else "")
    && p.dryRun && p.requiresHumanApproval && p.approvalStatus == "pending"
    && p.actionType == ActionOf(t, top)
    && (top.targetLayer == Some("service") ==> p.ocloudPath == "smo-tmf921-endpoint" && p.dispatch == None)
    && (top.targetLayer == Some("infra") ==>
          var inside := t.deliveryPaths[top.taxonomyMatch].ocloudInternal;
          p.ocloudPath == inside &&
          p.dispatch == Some(t.deploy(DeployRequest(rca.faultId, ActionOf(t, top), p.actionTarget, inside,
            if known then t.stubs[rca.faultId].deployOutcome else None))))
    && (p.companion.Some? <==>
          && top.taxonomyMatch == "node_firmware" && known
          && t.stubs[rca.faultId].blast.Some? && t.stubs[rca.faultId].blast.value.nodes >= 1)
    && (p.companion.Some? ==>
          p.companion == Some(Intent("INT-" + rca.faultId + "-companion", [p.actionTarget],
                                     t.stubs[rca.faultId].smoOutcome)))
  }

  /** An audit event is about what left the router, with the stub's verdict, reach and rollback, at its time. */
  predicate SaysAll(t: Tables, rca: Rca, audit: Audit)
    requires Routable(t, rca) && rca.faultId in t.stubs
  {
    var p, stub := audit.remediation, t.stubs[rca.faultId];
    && audit.eventId == "evt-" + rca.faultId + "-001" && audit.faultId == rca.faultId
    && Some(audit.eventTime) == stub.eventTime && RoutedAs(t, rca, p)
    && p.verdict == stub.verdict && p.guardrailBlast == stub.blast && p.reversibility == stub.reversibility
  }

  predicate WithinLimits(policy: Policy, b: Blast) {
    !(b.nodes > policy.maxNodes || b.sites > policy.maxSites || b.cells > policy.maxCells)
  }

  /** The router routes exactly what is routable, as the path says; else its error tells what is wrong. */
  lemma RouterAnswersExactly(t: Tables, rca: Rca)
    ensures RouteTo(t, rca).Ok? <==> Routable(t, rca)
    ensures RouteTo(t, rca).Err? ==>
            RouteTo(t, rca).error ==
            if rca.candidates == [] then NoCandidates
            else if rca.candidates[0].targetLayer == Some("ambiguous") then AmbiguousPath
            else if rca.candidates[0].targetLayer == Some("infra") then NoDeliveryPath else UnknownLayer
    ensures RouteTo(t, rca).Ok? ==>
            var p := RouteTo(t, rca).value;
            RoutedAs(t, rca, p) && p.verdict == None && p.guardrailBlast == None && p.reversibility == None
  {
    if Routable(t, rca) {
      var p := RouteTo(t, rca).value;
      assert p.companion == Companion(t, rca.faultId, p);
      hide WithCompanion, Companion;
    }
  }

  /** The walker's outcome, whole: the error of the first thing that is wrong, in the order in which it looks, and
      when nothing is, the audit event. A known stub is looked for last but needed first, for its verdict. */
  lemma WalkerAnswersExactly(t: Tables, rca: Rca)
    ensures var r := Walked(t, rca);
            var routable := Routable(t, rca);
            var stub := if rca.faultId in t.stubs then t.stubs[rca.faultId] else BlankStub();
            var judged := routable && rca.faultId in t.stubs && stub.verdict.Some?;
            var allowed := judged && !t.crisis && stub.verdict.value.applyAllowed;
            var listed := allowed && ActionOf(t, rca.candidates[0]) in t.policy.allowlist;
            var small := listed && stub.blast.Some? && WithinLimits(t.policy, stub.blast.value);
            && (r == Err(NoCandidates) <==> rca.candidates == [])
            && (r == Err(AmbiguousPath) <==> rca.candidates != [] && rca.candidates[0].targetLayer == Some("ambiguous"))
            && (r == Err(NoDeliveryPath) <==>
                  rca.candidates != [] && rca.candidates[0].targetLayer == Some("infra") && !routable)
            && (r == Err(UnknownLayer) <==>
                  rca.candidates != [] &&
                  rca.candidates[0].targetLayer !in {Some("infra"), Some("service"), Some("ambiguous")})
            && (r == Err(NoVerdict) <==> routable && !judged)
            && (r == Err(CrisisMode) <==> judged && t.crisis)
            && (r == Err(ApplyNotAllowed) <==> judged && !t.crisis && !allowed)
            && (r == Err(ActionNotAllowed) <==> allowed && !listed)
            && (r == Err(BlastExceeded) <==> listed && stub.blast.Some? && !small)
            && (r == Err(MissingField) <==>
                  (listed && stub.blast.None?) || (small && (stub.reversibility.None? || stub.eventTime.None?)))
            && (r.Ok? <==> small && stub.reversibility.Some? && stub.eventTime.Some?)
            && (r.Ok? ==> SaysAll(t, rca, r.value))
  {
    RouterAnswersExactly(t, rca);
    hide RouteTo;
    if Routable(t, rca) {
      var p := RouteTo(t, rca).value;
      var stub := StubOf(t, rca.faultId);
      if stub.verdict.Some? {
        var simulated := p.(verdict := stub.verdict);
        assert Simulated(t, p, rca.faultId) == Ok(simulated);
        assert Walked(t, rca) == Evaluated(t, simulated, rca.faultId).1;
      } else {
        assert Walked(t, rca) == Err(NoVerdict);
      }
    }
  }

  // ---------- the taxonomy file ----------

  datatype Section = Section(name: string, entries: seq<Entry>)

  /** The entries of all sections in a row. */
  function Entries(sections: seq<Section>): seq<Entry> {
    if sections == [] then [] else Entries(sections[..|sections| - 1]) + sections[|sections| - 1].entries
  }

  function ById(entries: seq<Entry>): map<string, Entry> {
    if entries == [] then map[] else ById(entries[..|entries| - 1])[entries[|entries| - 1].id := entries[|entries| - 1]]
  }

  /** The entry at `i` is the last with the id. */
  predicate LastAt(entries: seq<Entry>, id: string, i: nat) {
    i < |entries| && entries[i].id == id && forall j | i < j < |entries| :: entries[j].id != id
  }

  /** The taxonomy has every id of the file, with its last entry. */
  lemma {:induction false} LastEntryWins(entries: seq<Entry>, id: string)
    ensures id in ById(entries) <==> exists i: nat :: LastAt(entries, id, i)
    ensures forall i: nat | LastAt(entries, id, i) :: id in ById(entries) && ById(entries)[id] == entries[i]
  {
    if entries == [] {
    } else {
      var n := |entries| - 1;
      LastEntryWins(entries[..n], id);
      LastAtOneMore(entries, id);
      hide LastAt;
      if entries[n].id == id {
        assert LastAt(entries, id, n);
      } else if id in ById(entries[..n]) {
        var i: nat :| LastAt(entries[..n], id, i);
        assert LastAt(entries, id, i);
      }
    }
  }

  lemma LastAtOneMore(entries: seq<Entry>, id: string)
    requires entries != []
    ensures var n := |entries| - 1;
            if entries[n].id == id then forall i: nat :: LastAt(entries, id, i) <==> i == n
            else forall i: nat ::
              (LastAt(entries, id, i) <==> LastAt(entries[..n], id, i)) && (LastAt(entries[..n], id, i) ==> i < n)
  {}

  lemma ByIdOneMore(entries: seq<Entry>, e: Entry)
    ensures ById(entries + [e]) == ById(entries)[e.id := e]
  {
    assert (entries + [e])[..|entries|] == entries;
  }

  method LoadTaxonomyFile(sections: seq<Section>) returns (taxonomy: map<string, Entry>)
    ensures taxonomy == ById(Entries(sections))
  {
    taxonomy := map[];
    for i := 0 to |sections|
      invariant taxonomy == ById(Entries(sections[..i]))
    {
      assert sections[..i + 1][..i] == sections[..i];
      taxonomy := LoadSection(taxonomy, sections[i].entries, Entries(sections[..i]));
    }
    assert sections[..|sections|] == sections;
  }

  /** The inner loop: the entries of one section on top of those before. */
  method LoadSection(known: map<string, Entry>, entries: seq<Entry>, ghost before: seq<Entry>)
    returns (taxonomy: map<string, Entry>)
    requires known == ById(before)
    ensures taxonomy == ById(before + entries)
  {
    hide ById;
    taxonomy := known;
    assert before + entries[..0] == before;
    for j := 0 to |entries|
      invariant taxonomy == ById(before + entries[..j])
    {
      assert before + entries[..j + 1] == (before + entries[..j]) + [entries[j]];
      ByIdOneMore(before + entries[..j], entries[j]);
      taxonomy := taxonomy[entries[j].id := entries[j]];
    }
    assert entries[..|entries|] == entries;
  }

  // ---------- the services ----------

  /** The dictionary object that the stages pass on and write into. */
  class ProposalDict {
    var keys: Proposal

    constructor (keys: Proposal)
      ensures this.keys == keys
    {
      this.keys := keys;
    }
  }

  /** The audit event has the proposal object itself. */
  datatype AuditEvent = AuditEvent(eventId: string, eventTime: string, faultId: string, remediation: ProposalDict)

  method RouteRca(t: Tables, rca: Rca) returns (r: Result<ProposalDict, Failure>)
    ensures r.Ok? ==> fresh(r.value) && RouteTo(t, rca) == Ok(r.value.keys)
    ensures r.Err? ==> RouteTo(t, rca) == Err(r.error)
  {
    hide Companion, StubOf, DefaultId;
    if rca.candidates == [] { return Err(NoCandidates); }
    var top := rca.candidates[0];
    if top.targetLayer.None? { return Err(UnknownLayer); }
    var layer := top.targetLayer.value;
    var proposal := new ProposalDict(Draft(t, rca.faultId, top, layer));
    if layer == "infra" {
      if top.taxonomyMatch !in t.deliveryPaths { return Err(NoDeliveryPath); }
      var path := t.deliveryPaths[top.taxonomyMatch];
      proposal.keys := proposal.keys.(actionType := path.actionType, ocloudPath := path.ocloudInternal);
      var request := DeployRequest(rca.faultId, proposal.keys.actionType, proposal.keys.actionTarget,
                                   proposal.keys.ocloudPath,
                                   StubOf(t, rca.faultId).deployOutcome);
      proposal.keys := proposal.keys.(dispatch := Some(t.deploy(request)));
    } else if layer == "service" {
      proposal.keys := proposal.keys.(actionType := "emit_smo_intent", ocloudPath := "smo-tmf921-endpoint");
    } else if layer == "ambiguous" {
      return Err(AmbiguousPath);
    } else {
      return Err(UnknownLayer);
    }
    AddCompanion(t, rca.faultId, proposal);
    r := Ok(proposal);
  }

  method AddCompanion(t: Tables, faultId: string, proposal: ProposalDict)
    requires proposal.keys.companion == None
    modifies proposal
    ensures proposal.keys == WithCompanion(t, faultId, old(proposal.keys))
  {
    if proposal.keys.taxonomyMatch != "node_firmware" { return; }
    var stub := StubOf(t, faultId);
    if stub.blast.None? || stub.blast.value.nodes < 1 { return; }
    var intent := Intent("INT-" + faultId + "-companion", [proposal.keys.actionTarget], None);
    if stub.smoOutcome.Some? { intent := intent.(dispatchResult := stub.smoOutcome); }
    proposal.keys := proposal.keys.(companion := Some(intent));
  }

  method SandboxSimulation(t: Tables, proposal: ProposalDict, faultId: string) returns (failure: Option<Failure>)
    modifies proposal
    ensures failure.None? ==> Simulated(t, old(proposal.keys), faultId) == Ok(proposal.keys)
    ensures failure.Some? ==>
            Simulated(t, old(proposal.keys), faultId) == Err(failure.value) && proposal.keys == old(proposal.keys)
  {
    var verdict := StubOf(t, faultId).verdict;
    if verdict.None? { return Some(NoVerdict); }
    proposal.keys := proposal.keys.(verdict := verdict);
    failure := None;
  }

  method CheckGates(t: Tables, p: Proposal, faultId: string) returns (held: Option<Failure>)
    ensures held == Held(t, p, faultId)
  {
    if t.crisis { return Some(CrisisMode); }
    if p.verdict.None? { return Some(NoVerdict); }
    if !p.verdict.value.applyAllowed { return Some(ApplyNotAllowed); }
    if p.actionType !in t.policy.allowlist { return Some(ActionNotAllowed); }
    if faultId !in t.stubs { return Some(NoStub); }
    if t.stubs[faultId].blast.None? { return Some(MissingField); }
    var blast := t.stubs[faultId].blast.value;
    if blast.nodes > t.policy.maxNodes || blast.sites > t.policy.maxSites || blast.cells > t.policy.maxCells {
      return Some(BlastExceeded);
    }
    if p.actionType in t.policy.requireApproval {
      if !p.requiresHumanApproval { return Some(ApprovalMissing); }
    }
    held := None;
  }

  method Evaluate(t: Tables, proposal: ProposalDict, faultId: string) returns (r: Result<AuditEvent, Failure>)
    modifies proposal
    ensures proposal.keys == Evaluated(t, old(proposal.keys), faultId).0
    ensures r.Ok? ==> r.value.remediation == proposal &&
                      Evaluated(t, old(proposal.keys), faultId).1 ==
                      Ok(Audit(r.value.eventId, r.value.eventTime, r.value.faultId, proposal.keys))
    ensures r.Err? ==> Evaluated(t, old(proposal.keys), faultId).1 == Err(r.error)
  {
    var held := CheckGates(t, proposal.keys, faultId);
    hide Held;
    if held.Some? { return Err(held.value); }
    var stub := StubOf(t, faultId);
    proposal.keys := proposal.keys.(guardrailBlast := stub.blast);
    if stub.reversibility.None? { return Err(MissingField); }
    proposal.keys := proposal.keys.(reversibility := stub.reversibility);
    if stub.eventTime.None? { return Err(MissingField); }
    r := Ok(AuditEvent("evt-" + faultId + "-001", stub.eventTime.value, faultId, proposal));
  }

  /** The walker's composition, one proposal object from the router to the audit event. */
  method Walk(t: Tables, rca: Rca) returns (r: Result<AuditEvent, Failure>)
    ensures r.Ok? ==> fresh(r.value.remediation) &&
                      Walked(t, rca) ==
                      Ok(Audit(r.value.eventId, r.value.eventTime, r.value.faultId, r.value.remediation.keys))
    ensures r.Err? ==> Walked(t, rca) == Err(r.error)
  {
    hide RouteTo, Simulated, Evaluated;
    var routed := RouteRca(t, rca);
    if routed.Err? { return Err(routed.error); }
    var proposal := routed.value;
    var failure := SandboxSimulation(t, proposal, rca.faultId);
    if failure.Some? { return Err(failure.value); }
    r := Evaluate(t, proposal, rca.faultId);
  }

  method RunInOrder(nodes: Nodes, order: seq<Node>, s: GraphState) returns (r: Result<GraphState, Failure>)
    ensures r == RunAll(nodes, order, s)
  {
    var state := s;
    for i := 0 to |order|
      invariant RunAll(nodes, order, s) == RunAll(nodes, order[i..], state)
    {
      var step := nodes(order[i], state);
      assert order[i..][1..] == order[i + 1..];
      if step.Err? { return Err(step.error); }
      state := step.value;
    }
    r := Ok(state);
  }

  /** The sequential runner's loop. */
  method Invoke(nodes: Nodes, initial: GraphState) returns (r: Result<GraphState, Failure>)
    ensures r == FollowEdges(nodes, LoadTaxonomy, initial)
  {
    SequentialFollowsEdges(nodes, initial);
    r := RunInOrder(nodes, [LoadTaxonomy, Classify], initial);
    if r.Err? { return; }
    var state := r.value;
    if state.ambiguityRequired {
      var step := nodes(Ambiguity, state);
      if step.Err? { return Err(step.error); }
      state := step.value;
      if state.status == BlockedAmbiguous { return Ok(state); }
    }
    r := RunInOrder(nodes, [Route, Sandbox, Guardrail], state);
  }
}
