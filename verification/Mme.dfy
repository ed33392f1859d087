/** The MME's UE contexts and their GUTIs (5G_Emulator_API/core_network/mme.py). A context is an object
    shared by several dictionaries; here `contexts` holds the objects by their identity, the random
    ue_id, and the dictionaries hold identities. An absent IMSI is the empty string. */
module Mme {
  import opened Common
  import Hex

  type UeId = nat

  /** The index key is the text of the four parts joined by dashes; here it is the four parts. */
  datatype Guti = Guti(plmn: string, group: int, code: int, mTmsi: string)

  datatype Ue = Ue(imsi: string, guti: Option<Guti>, ksi: int, registered: bool)

  /** `issued` is a ledger that only the proofs see: to whom each GUTI was given. */
  datatype State = State(
    counter: nat, contexts: map<UeId, Ue>, live: seq<UeId>, byImsi: map<string, UeId>, byGuti: map<Guti, UeId>,
    issued: map<Guti, UeId>)

  datatype Answer =
    | IdentityRequired
    | AttachAccept(ue: UeId, guti: Guti)
    | NotFound
    | DetachAccept(ue: UeId)
    | ServiceReject(cause: int)
    | ServiceAccept(ue: UeId)
    | TauReject
    | TauAccept(ue: UeId, guti: Guti)

  const PLMN := "00101"
  const GROUP := 1
  const CODE := 1

  function GutiFor(mTmsi: string): Guti { Guti(PLMN, GROUP, CODE, mTmsi) }

  /** The GUTI that goes with the n-th M-TMSI. */
  function GutiOf(n: nat): Guti { GutiFor(Hex.Format08(n)) }

  // ---------- the procedures ----------

  function Lookup(s: State, imsi: string, guti: Option<Guti>): Option<UeId> {
    if imsi != "" then if imsi in s.byImsi then Some(s.byImsi[imsi]) else None
    else if guti.Some? && guti.value in s.byGuti then Some(s.byGuti[guti.value])
    else None
  }

  /** Give a context the next GUTI and enter it in every dictionary; older keys of it stay. */
  function Enter(s: State, id: UeId, ue: Ue): State {
    var g := GutiOf(s.counter + 1);
    State(s.counter + 1, s.contexts[id := ue.(guti := Some(g))], if id in s.live then s.live else s.live + [id],
          if ue.imsi == "" then s.byImsi else s.byImsi[ue.imsi := id], s.byGuti[g := id], s.issued[g := id])
  }

  function Attach(s: State, newId: UeId, imsi: string, guti: Option<Guti>): (State, Answer) {
    var found := Lookup(s, imsi, guti);
    if found.None? && imsi == "" then (s, IdentityRequired)
    else
      var id := if found.Some? then found.value else newId;
      var ue := if found.Some? && id in s.contexts then s.contexts[id] else Ue(imsi, None, 0, false);
      (Enter(s, id, ue.(ksi := 0, registered := true)), AttachAccept(id, GutiOf(s.counter + 1)))
  }

  function Remove(s: State, id: UeId): State {
    if id !in s.live || id !in s.contexts then s else
    var ue := s.contexts[id];
    State(s.counter, s.contexts, Without(s.live, id), s.byImsi - {ue.imsi},
          if ue.guti.Some? then s.byGuti - {ue.guti.value} else s.byGuti, s.issued)
  }

  function Detach(s: State, imsi: string, guti: Option<Guti>): (State, Answer) {
    var found := Lookup(s, imsi, guti);
    if found.None? || found.value !in s.contexts then (s, NotFound)
    else
      var id := found.value;
      (Remove(s.(contexts := s.contexts[id := s.contexts[id].(registered := false)]), id), DetachAccept(id))
  }

  predicate Carries(s: State, id: UeId, mTmsi: string) {
    id in s.contexts && s.contexts[id].guti.Some? && s.contexts[id].guti.value.mTmsi == mTmsi
  }

  /** The first live context whose current GUTI has the M-TMSI. */
  function Scan(s: State, live: seq<UeId>, mTmsi: string): Option<UeId> {
    if live == [] then None else if Carries(s, live[0], mTmsi) then Some(live[0]) else Scan(s, live[1..], mTmsi)
  }

  function ServiceRequest(s: State, mTmsi: string, ksi: int): Answer {
    var found := Scan(s, s.live, mTmsi);
    if found.None? || found.value !in s.contexts then ServiceReject(10)
    else if s.contexts[found.value].ksi != ksi then ServiceReject(9)
    else ServiceAccept(found.value)
  }

  predicate Reallocates(updateType: string) { updateType == "TA_UPDATING" || updateType == "COMBINED_TA_LA_UPDATING" }

  /** Give a context the next GUTI in place of its current one. Only the current key goes; a key from
      before an attach stays. */
  function Reallocate(s: State, id: UeId): State
    requires id in s.contexts && s.contexts[id].guti.Some?
  {
    var g := GutiOf(s.counter + 1);
    s.(counter := s.counter + 1, contexts := s.contexts[id := s.contexts[id].(guti := Some(g))],
       byGuti := (s.byGuti - {s.contexts[id].guti.value})[g := id], issued := s.issued[g := id])
  }

  function Tau(s: State, guti: Guti, updateType: string): (State, Answer) {
    if guti !in s.byGuti || s.byGuti[guti] !in s.contexts || s.contexts[s.byGuti[guti]].guti.None? then (s, TauReject)
    else
      var id := s.byGuti[guti];
      if !Reallocates(updateType) then (s, TauAccept(id, s.contexts[id].guti.value))
      else (Reallocate(s, id), TauAccept(id, GutiOf(s.counter + 1)))
  }

  datatype Op =
    | AttachOp(newId: UeId, imsi: string, guti: Option<Guti>)
    | DetachOp(imsi: string, guti: Option<Guti>)
    | ServiceOp(mTmsi: string, ksi: int)
    | TauOp(theGuti: Guti, updateType: string)

  function Empty(): State { State(0, map[], [], map[], map[], map[]) }

  function Step(s: State, op: Op): (State, Answer) {
    match op
    case AttachOp(newId, imsi, guti) => Attach(s, newId, imsi, guti)
    case DetachOp(imsi, guti) => Detach(s, imsi, guti)
    case ServiceOp(mTmsi, ksi) => (s, ServiceRequest(s, mTmsi, ksi))
    case TauOp(guti, updateType) => Tau(s, guti, updateType)
  }

  function Run(ops: seq<Op>): State {
    if ops == [] then Empty() else Step(Run(ops[..|ops| - 1]), ops[|ops| - 1]).0
  }

  /** The random ue_id of a new context belongs to no other. */
  predicate Fresh(s: State, op: Op) { op.AttachOp? ==> op.newId !in s.contexts }

  ghost predicate FreshIds(ops: seq<Op>) {
    forall i | 0 <= i < |ops| :: Fresh(Run(ops[..i]), ops[i])
  }

  /** The attach finds a context, by its IMSI or by its GUTI. */
  predicate Finds(s: State, op: Op) { op.AttachOp? && Lookup(s, op.imsi, op.guti).Some? }

  /** No attach of the run finds an existing context. */
  ghost predicate AttachesOnlyNew(ops: seq<Op>) {
    forall i | 0 <= i < |ops| :: !Finds(Run(ops[..i]), ops[i])
  }

  lemma RunOneMore(ops: seq<Op>, op: Op)
    ensures Run(ops + [op]) == Step(Run(ops), op).0
  {
    assert (ops + [op])[..|ops|] == ops;
  }

  /** What a run of one call more adds to the two conditions on runs. */
  lemma OneMoreCall(ops: seq<Op>, op: Op)
    ensures FreshIds(ops + [op]) <==> FreshIds(ops) && Fresh(Run(ops), op)
    ensures AttachesOnlyNew(ops + [op]) <==> AttachesOnlyNew(ops) && !Finds(Run(ops), op)
  {
    hide Run, Fresh, Finds;
    var all := ops + [op];
    assert all[..|ops|] == ops;
    forall i | 0 <= i <= |ops| ensures all[..i] == ops[..i] {}
    forall i | 0 <= i < |ops| ensures all[i] == ops[i] {}
  }

  // ---------- what every run keeps ----------

  /** Only GUTIs from the counter were issued. */
  ghost predicate FromCounter(issued: map<Guti, UeId>, counter: nat) {
    forall g | g in issued :: exists n: nat | n <= counter :: g == GutiOf(n)
  }

  /** Each index entry names the UE the GUTI was issued to. */
  ghost predicate EntriesTrue(byGuti: map<Guti, UeId>, issued: map<Guti, UeId>) {
    forall g | g in byGuti :: g in issued && byGuti[g] == issued[g]
  }

  /** Each context has a current GUTI, and it was issued to that context. */
  ghost predicate CurrentTrue(contexts: map<UeId, Ue>, issued: map<Guti, UeId>) {
    && (forall id | id in contexts ::
        contexts[id].guti.Some? && contexts[id].guti.value in issued && issued[contexts[id].guti.value] == id)
    && (forall g | g in issued :: issued[g] in contexts)
  }

  /** Each live UE is indexed under its current GUTI. */
  ghost predicate LiveIndexed(contexts: map<UeId, Ue>, live: seq<UeId>, byGuti: map<Guti, UeId>) {
    forall id | id in live :: id in contexts && contexts[id].guti.Some? && contexts[id].guti.value in byGuti
  }

  ghost predicate ImsisKnown(contexts: map<UeId, Ue>, byImsi: map<string, UeId>) {
    forall imsi | imsi in byImsi :: byImsi[imsi] in contexts
  }

  ghost predicate Consistent(s: State) {
    && FromCounter(s.issued, s.counter) && EntriesTrue(s.byGuti, s.issued) && CurrentTrue(s.contexts, s.issued)
    && LiveIndexed(s.contexts, s.live, s.byGuti) && NoDuplicates(s.live) && ImsisKnown(s.contexts, s.byImsi)
  }

  lemma GutisAreDistinct(m: nat, n: nat)
    requires GutiOf(m) == GutiOf(n)
    ensures m == n
  {
    Hex.RoundTrip(m);
    Hex.RoundTrip(n);
  }

  /** The next GUTI was never issued before. */
  lemma NextIsNew(s: State)
    requires Consistent(s)
    ensures GutiOf(s.counter + 1) !in s.issued
  {
    hide CurrentTrue, LiveIndexed, EntriesTrue;
    var g := GutiOf(s.counter + 1);
    if g in s.issued {
      var n: nat :| n <= s.counter && g == GutiOf(n);
      GutisAreDistinct(n, s.counter + 1);
    }
  }

  lemma OneMoreFromCounter(issued: map<Guti, UeId>, counter: nat, id: UeId)
    requires FromCounter(issued, counter)
    ensures FromCounter(issued[GutiOf(counter + 1) := id], counter + 1)
  {
    var g := GutiOf(counter + 1);
    var after := issued[g := id];
    forall h | h in after ensures exists n: nat | n <= counter + 1 :: h == GutiOf(n) {
      if h == g {
        assert h == GutiOf(counter + 1);
      } else {
        var n: nat :| n <= counter && h == GutiOf(n);
      }
    }
  }

  lemma OneMoreCurrent(contexts: map<UeId, Ue>, issued: map<Guti, UeId>, id: UeId, ue: Ue, g: Guti)
    requires CurrentTrue(contexts, issued) && g !in issued
    ensures CurrentTrue(contexts[id := ue.(guti := Some(g))], issued[g := id])
  {}

  lemma OneMoreEntry(byGuti: map<Guti, UeId>, issued: map<Guti, UeId>, id: UeId, g: Guti)
    requires EntriesTrue(byGuti, issued) && g !in issued
    ensures EntriesTrue(byGuti[g := id], issued[g := id])
  {}

  lemma IssueKeeps(s: State, id: UeId, ue: Ue, live: seq<UeId>, byImsi: map<string, UeId>, byGuti: map<Guti, UeId>)
    requires Consistent(s) && NoDuplicates(live)
    requires forall i | i in live :: i == id || i in s.live
    requires forall g | g in byGuti :: g in s.byGuti && byGuti[g] == s.byGuti[g]
    requires forall i | i in s.live && i != id :: s.contexts[i].guti.value in byGuti
    requires forall imsi | imsi in byImsi :: byImsi[imsi] == id || byImsi[imsi] in s.contexts
    ensures var g := GutiOf(s.counter + 1);
            Consistent(State(s.counter + 1, s.contexts[id := ue.(guti := Some(g))], live, byImsi, byGuti[g := id],
                             s.issued[g := id]))
  {
    NextIsNew(s);
    var g := GutiOf(s.counter + 1);
    OneMoreFromCounter(s.issued, s.counter, id);
    assert forall i | i in s.live :: i in s.contexts && s.contexts[i].guti.Some?;
    OneMoreCurrent(s.contexts, s.issued, id, ue, g);
    OneMoreEntry(byGuti, s.issued, id, g);
    hide GutiOf, FromCounter, CurrentTrue, EntriesTrue, NoDuplicates;
  }

  lemma LookupIsKnown(s: State, imsi: string, guti: Option<Guti>)
    requires Consistent(s)
    ensures Lookup(s, imsi, guti).Some? ==> Lookup(s, imsi, guti).value in s.contexts
  {
    hide FromCounter, NoDuplicates, LiveIndexed, GutiOf;
  }

  lemma AttachKeeps(s: State, newId: UeId, imsi: string, guti: Option<Guti>)
    requires Consistent(s) && newId !in s.contexts
    ensures Consistent(Attach(s, newId, imsi, guti).0)
  {
    hide GutiOf, FromCounter;
    var found := Lookup(s, imsi, guti);
    if found.Some? || imsi != "" {
      var id := if found.Some? then found.value else newId;
      var ue := if found.Some? && id in s.contexts then s.contexts[id] else Ue(imsi, None, 0, false);
      var live := if id in s.live then s.live else s.live + [id];
      var byImsi := if ue.imsi == "" then s.byImsi else s.byImsi[ue.imsi := id];
      assert found.None? ==> id !in s.live;
      IssueKeeps(s, id, ue.(ksi := 0, registered := true), live, byImsi, s.byGuti);
    }
  }

  /** Two live contexts never share their current GUTI. */
  lemma CurrentGutisDiffer(s: State, p: UeId, q: UeId)
    requires Consistent(s) && p in s.contexts && q in s.contexts && p != q
    ensures s.contexts[p].guti != s.contexts[q].guti
  {}

  lemma RemoveKeeps(s: State, id: UeId)
    requires Consistent(s)
    ensures Consistent(Remove(s, id))
  {
    if id in s.live {
      WithoutMembers(s.live, id);
      hide FromCounter, NoDuplicates, GutiOf;
      forall p | p in s.live && p != id ensures s.contexts[p].guti != s.contexts[id].guti {
        CurrentGutisDiffer(s, p, id);
      }
    }
  }

  lemma MarkKeeps(s: State, id: UeId)
    requires Consistent(s) && id in s.contexts
    ensures Consistent(s.(contexts := s.contexts[id := s.contexts[id].(registered := false)]))
  {
    hide FromCounter, NoDuplicates, GutiOf;
  }

  lemma DetachKeeps(s: State, imsi: string, guti: Option<Guti>)
    requires Consistent(s)
    ensures Consistent(Detach(s, imsi, guti).0)
  {
    hide Consistent, Remove;
    var found := Lookup(s, imsi, guti);
    if found.Some? && found.value in s.contexts {
      var id := found.value;
      MarkKeeps(s, id);
      RemoveKeeps(s.(contexts := s.contexts[id := s.contexts[id].(registered := false)]), id);
    }
  }

  lemma TauKeeps(s: State, guti: Guti, updateType: string)
    requires Consistent(s)
    ensures Consistent(Tau(s, guti, updateType).0)
  {
    hide GutiOf, FromCounter, Reallocates;
    if guti in s.byGuti && Reallocates(updateType) {
      var id := s.byGuti[guti];
      var ue := s.contexts[id];
      forall i | i in s.live && i != id ensures s.contexts[i].guti != ue.guti { CurrentGutisDiffer(s, i, id); }
      IssueKeeps(s, id, ue, s.live, s.byImsi, s.byGuti - {ue.guti.value});
    }
  }

  lemma StepKeeps(s: State, op: Op)
    requires Consistent(s) && Fresh(s, op)
    ensures Consistent(Step(s, op).0)
  {
    match op
    case AttachOp(newId, imsi, guti) => AttachKeeps(s, newId, imsi, guti);
    case DetachOp(imsi, guti) => DetachKeeps(s, imsi, guti);
    case ServiceOp(_, _) =>
    case TauOp(guti, updateType) => TauKeeps(s, guti, updateType);
  }

  /** On every run: only GUTIs from the counter are issued, each index entry names the UE its GUTI was
      issued to, each live UE is indexed under its current GUTI. */
  lemma {:induction false} RunKeeps(ops: seq<Op>)
    requires FreshIds(ops)
    ensures Consistent(Run(ops))
  {
    if ops == [] {
    } else {
      var before, last := ops[..|ops| - 1], ops[|ops| - 1];
      assert ops == before + [last];
      OneMoreCall(before, last);
      RunKeeps(before);
      StepKeeps(Run(before), last);
    }
  }

  // ---------- no GUTI twice ----------

  /** The GUTI that a step issues, if it issues one. */
  function IssuedBy(s: State, op: Op): Option<Guti> {
    var (s', answer) := Step(s, op);
    if s'.counter == s.counter then None
    else if answer.AttachAccept? || answer.TauAccept? then Some(answer.guti) else None
  }

  lemma IssuesNext(s: State, op: Op)
    ensures s.counter <= Step(s, op).0.counter
    ensures IssuedBy(s, op).Some? ==>
            IssuedBy(s, op).value == GutiOf(s.counter + 1) && Step(s, op).0.counter == s.counter + 1
    ensures IssuedBy(s, op).None? ==> Step(s, op).0.counter == s.counter
  {
    hide GutiOf, Lookup, Scan, Reallocates;
  }

  lemma {:induction false} CounterGrows(ops: seq<Op>, i: nat, j: nat)
    requires i <= j <= |ops|
    ensures Run(ops[..i]).counter <= Run(ops[..j]).counter
    decreases j
  {
    hide Step;
    if i == j {
    } else {
      CounterGrows(ops, i, j - 1);
      assert ops[..j] == ops[..j - 1] + [ops[j - 1]];
      RunOneMore(ops[..j - 1], ops[j - 1]);
      hide Run;
      IssuesNext(Run(ops[..j - 1]), ops[j - 1]);
    }
  }

  lemma CounterPasses(ops: seq<Op>, i: nat)
    requires i < |ops| && IssuedBy(Run(ops[..i]), ops[i]).Some?
    ensures IssuedBy(Run(ops[..i]), ops[i]).value == GutiOf(Run(ops[..i]).counter + 1)
    ensures Run(ops[..i + 1]).counter == Run(ops[..i]).counter + 1
  {
    hide Run, Step, IssuedBy, GutiOf;
    assert ops[..i + 1] == ops[..i] + [ops[i]];
    RunOneMore(ops[..i], ops[i]);
    IssuesNext(Run(ops[..i]), ops[i]);
  }

  /** No two steps of a run issue the same GUTI, whatever is attached, detached or updated between them. */
  lemma NoGutiTwice(ops: seq<Op>, i: nat, j: nat)
    requires i < j < |ops| && IssuedBy(Run(ops[..i]), ops[i]).Some?
    ensures IssuedBy(Run(ops[..j]), ops[j]) != IssuedBy(Run(ops[..i]), ops[i])
  {
    hide Run, Step, IssuedBy, GutiOf;
    var si, sj := Run(ops[..i]), Run(ops[..j]);
    CounterPasses(ops, i);
    CounterGrows(ops, i + 1, j);
    IssuesNext(sj, ops[j]);
    if IssuedBy(sj, ops[j]) == IssuedBy(si, ops[i]) { GutisAreDistinct(si.counter + 1, sj.counter + 1); }
  }

  // ---------- the scan and the index ----------

  lemma {:induction false} ScanFinds(s: State, live: seq<UeId>, mTmsi: string)
    ensures Scan(s, live, mTmsi).Some? ==>
            Scan(s, live, mTmsi).value in live && Carries(s, Scan(s, live, mTmsi).value, mTmsi)
    ensures Scan(s, live, mTmsi).None? ==> forall id | id in live :: !Carries(s, id, mTmsi)
  {
    if live == [] {
    } else {
      ScanFinds(s, live[1..], mTmsi);
    }
  }

  /** The service request's scan by M-TMSI finds a UE exactly when the index sends that GUTI to a live UE
      for which it is still current, and then it finds that UE. */
  lemma ScanIsIndex(s: State, mTmsi: string)
    requires Consistent(s)
    ensures var g := GutiFor(mTmsi);
            Scan(s, s.live, mTmsi) ==
            if g in s.byGuti && s.byGuti[g] in s.live && s.contexts[s.byGuti[g]].guti == Some(g)
            then Some(s.byGuti[g]) else None
  {
    ScanFinds(s, s.live, mTmsi);
    hide Scan, NoDuplicates;
    var g := GutiFor(mTmsi);
    forall id | id in s.live && Carries(s, id, mTmsi) ensures s.contexts[id].guti == Some(g) && s.byGuti[g] == id {
      var current := s.contexts[id].guti.value;
      var n: nat :| n <= s.counter && current == GutiOf(n);
      assert current == g;
    }
    if g in s.byGuti && s.byGuti[g] in s.live && s.contexts[s.byGuti[g]].guti == Some(g) {
      assert Carries(s, s.byGuti[g], mTmsi);
    }
  }

  // ---------- stale GUTIs ----------

  /** Every index entry names a live UE for which that GUTI is current. */
  ghost predicate AllCurrent(contexts: map<UeId, Ue>, live: seq<UeId>, byGuti: map<Guti, UeId>) {
    forall g | g in byGuti :: byGuti[g] in live && byGuti[g] in contexts && contexts[byGuti[g]].guti == Some(g)
  }

  ghost predicate NoStale(s: State) { AllCurrent(s.contexts, s.live, s.byGuti) }

  /** The entry names a context that has another GUTI by now. */
  predicate OutdatedAt(s: State, g: Guti) {
    g in s.byGuti && s.byGuti[g] in s.contexts && s.contexts[s.byGuti[g]].guti != Some(g)
  }

  ghost predicate Outdated(s: State) { exists g :: OutdatedAt(s, g) }

  /** Every entry of the IMSI index names a live UE of that IMSI. */
  ghost predicate ImsisTrue(contexts: map<UeId, Ue>, live: seq<UeId>, byImsi: map<string, UeId>) {
    forall imsi | imsi in byImsi ::
      byImsi[imsi] in live && byImsi[imsi] in contexts && contexts[byImsi[imsi]].imsi == imsi
  }

  /** Every live UE has its entry in the IMSI index. */
  ghost predicate ImsisListed(contexts: map<UeId, Ue>, live: seq<UeId>, byImsi: map<string, UeId>) {
    forall id | id in live :: id in contexts && contexts[id].imsi in byImsi && byImsi[contexts[id].imsi] == id
  }

  ghost predicate OneEach(contexts: map<UeId, Ue>, live: seq<UeId>, byImsi: map<string, UeId>) {
    ImsisTrue(contexts, live, byImsi) && ImsisListed(contexts, live, byImsi)
  }

  ghost predicate Clean(s: State) { NoStale(s) && OneEach(s.contexts, s.live, s.byImsi) }

  /** Attaching by an IMSI and a GUTI that find nothing adds the first context of its subscriber. */
  lemma FirstAttachKeepsClean(s: State, newId: UeId, imsi: string, guti: Option<Guti>)
    requires Consistent(s) && Clean(s) && newId !in s.contexts && Lookup(s, imsi, guti).None?
    ensures Clean(Attach(s, newId, imsi, guti).0)
  {
    NextIsNew(s);
    if imsi != "" {
      var g := GutiOf(s.counter + 1);
      var ue := Ue(imsi, Some(g), 0, true);
      assert newId !in s.live && g !in s.byGuti;
      OneMoreAllCurrent(s.contexts, s.live, s.byGuti, newId, ue, g);
      OneMoreEach(s.contexts, s.live, s.byImsi, newId, ue);
      assert Attach(s, newId, imsi, guti).0 ==
             State(s.counter + 1, s.contexts[newId := ue], s.live + [newId], s.byImsi[imsi := newId],
                   s.byGuti[g := newId], s.issued[g := newId]);
      hide *;
    }
  }

  lemma OneMoreAllCurrent(contexts: map<UeId, Ue>, live: seq<UeId>, byGuti: map<Guti, UeId>, id: UeId, ue: Ue, g: Guti)
    requires AllCurrent(contexts, live, byGuti) && id !in live && ue.guti == Some(g)
    ensures AllCurrent(contexts[id := ue], live + [id], byGuti[g := id])
  {}

  lemma OneMoreEach(contexts: map<UeId, Ue>, live: seq<UeId>, byImsi: map<string, UeId>, id: UeId, ue: Ue)
    requires OneEach(contexts, live, byImsi) && id !in live && ue.imsi !in byImsi
    ensures OneEach(contexts[id := ue], live + [id], byImsi[ue.imsi := id])
  {}

  /** Attaching by ones that find a context leaves the context's older GUTI behind. */
  lemma SecondAttachIsOutdated(s: State, newId: UeId, imsi: string, guti: Option<Guti>)
    requires Consistent(s) && Clean(s) && Lookup(s, imsi, guti).Some?
    ensures Outdated(Attach(s, newId, imsi, guti).0)
  {
    LookupIsKnown(s, imsi, guti);
    NextIsNew(s);
    var id := Lookup(s, imsi, guti).value;
    var older := s.contexts[id].guti.value;
    assert id in s.live;
    assert older in s.byGuti && s.byGuti[older] == id;
    hide GutiOf, FromCounter, NoDuplicates;
    assert OutdatedAt(Attach(s, newId, imsi, guti).0, older);
  }

  lemma OutdatedIsStale(s: State)
    requires Outdated(s)
    ensures !NoStale(s)
  {}

  /** One attach keeps the index free of stale entries exactly when it finds no context. */
  lemma AttachKeepsNoStaleExactly(s: State, newId: UeId, imsi: string, guti: Option<Guti>)
    requires Consistent(s) && Clean(s) && newId !in s.contexts
    ensures NoStale(Attach(s, newId, imsi, guti).0) <==> Lookup(s, imsi, guti).None?
  {
    if Lookup(s, imsi, guti).None? {
      FirstAttachKeepsClean(s, newId, imsi, guti);
    } else {
      SecondAttachIsOutdated(s, newId, imsi, guti);
      OutdatedIsStale(Attach(s, newId, imsi, guti).0);
    }
  }

  lemma RemoveKeepsClean(s: State, id: UeId)
    requires Consistent(s) && Clean(s)
    ensures Clean(Remove(s, id))
  {
    if id in s.live {
      assert id in s.contexts && s.contexts[id].guti.Some?;
      WithoutMembers(s.live, id);
      hide Consistent, AllCurrent, ImsisTrue, ImsisListed, Without;
      var rest := Without(s.live, id);
      OneLessCurrent(s.contexts, s.live, rest, s.byGuti, id);
      OneLessTrue(s.contexts, s.live, rest, s.byImsi, id);
      OneLessListed(s.contexts, s.live, rest, s.byImsi, id);
    }
  }

  lemma OneLessCurrent(contexts: map<UeId, Ue>, live: seq<UeId>, rest: seq<UeId>, byGuti: map<Guti, UeId>, id: UeId)
    requires AllCurrent(contexts, live, byGuti) && id in contexts && contexts[id].guti.Some?
    requires forall p :: p in rest <==> p in live && p != id
    ensures AllCurrent(contexts, rest, byGuti - {contexts[id].guti.value})
  {}

  lemma OneLessTrue(contexts: map<UeId, Ue>, live: seq<UeId>, rest: seq<UeId>, byImsi: map<string, UeId>, id: UeId)
    requires ImsisTrue(contexts, live, byImsi) && id in contexts
    requires forall p :: p in rest <==> p in live && p != id
    ensures ImsisTrue(contexts, rest, byImsi - {contexts[id].imsi})
  {}

  lemma OneLessListed(contexts: map<UeId, Ue>, live: seq<UeId>, rest: seq<UeId>, byImsi: map<string, UeId>, id: UeId)
    requires ImsisListed(contexts, live, byImsi) && id in live
    requires forall p :: p in rest <==> p in live && p != id
    ensures ImsisListed(contexts, rest, byImsi - {contexts[id].imsi})
  {}

  lemma MarkKeepsClean(s: State, id: UeId)
    requires Clean(s) && id in s.contexts
    ensures Clean(s.(contexts := s.contexts[id := s.contexts[id].(registered := false)]))
  {}

  lemma DetachKeepsClean(s: State, imsi: string, guti: Option<Guti>)
    requires Consistent(s) && Clean(s)
    ensures Clean(Detach(s, imsi, guti).0)
  {
    hide Consistent, Clean, Remove;
    var found := Lookup(s, imsi, guti);
    if found.Some? && found.value in s.contexts {
      MarkKeeps(s, found.value);
      MarkKeepsClean(s, found.value);
      RemoveKeepsClean(s.(contexts := s.contexts[found.value := s.contexts[found.value].(registered := false)]),
                       found.value);
    }
  }

  lemma TauKeepsClean(s: State, guti: Guti, updateType: string)
    requires Consistent(s) && Clean(s)
    ensures Clean(Tau(s, guti, updateType).0)
  {
    hide GutiOf, FromCounter, NoDuplicates, Reallocates;
    NextIsNew(s);
  }

  lemma EnterStays(s: State, id: UeId, ue: Ue, g: Guti)
    requires OutdatedAt(s, g) && g != GutiOf(s.counter + 1)
    ensures OutdatedAt(Enter(s, id, ue), g)
  {
    hide GutiOf;
  }

  lemma AttachStays(s: State, newId: UeId, imsi: string, guti: Option<Guti>, g: Guti)
    requires OutdatedAt(s, g) && g != GutiOf(s.counter + 1)
    ensures OutdatedAt(Attach(s, newId, imsi, guti).0, g)
  {
    hide GutiOf, Lookup, Enter, OutdatedAt;
    var s' := Attach(s, newId, imsi, guti).0;
    if s' != s {
      var id, ue :| s' == Enter(s, id, ue);
      EnterStays(s, id, ue, g);
    }
  }

  lemma DetachStays(s: State, imsi: string, guti: Option<Guti>, g: Guti)
    requires OutdatedAt(s, g) && EntriesTrue(s.byGuti, s.issued) && CurrentTrue(s.contexts, s.issued)
    ensures OutdatedAt(Detach(s, imsi, guti).0, g)
  {
    hide Lookup, Without;
    var found := Lookup(s, imsi, guti);
    if found.Some? && found.value in s.contexts {
      assert s.contexts[found.value].guti != Some(g);
      hide EntriesTrue, CurrentTrue;
    }
  }

  lemma ReallocateStays(s: State, id: UeId, g: Guti)
    requires OutdatedAt(s, g) && EntriesTrue(s.byGuti, s.issued) && CurrentTrue(s.contexts, s.issued)
    requires id in s.contexts && g != GutiOf(s.counter + 1)
    ensures OutdatedAt(Reallocate(s, id), g)
  {
    hide GutiOf;
    assert s.contexts[id].guti.Some? && s.contexts[id].guti != Some(g);
    hide EntriesTrue, CurrentTrue;
  }

  /** A GUTI that a context has left is never its current one again, and no step takes it out of the index. */
  lemma OutdatedEntryStays(s: State, op: Op, g: Guti)
    requires Consistent(s) && Fresh(s, op) && OutdatedAt(s, g)
    ensures OutdatedAt(Step(s, op).0, g)
  {
    NextIsNew(s);
    assert g in s.issued by { hide FromCounter, CurrentTrue, LiveIndexed, NoDuplicates, ImsisKnown; }
    hide GutiOf, OutdatedAt, Attach, Detach, Reallocate, Reallocates, FromCounter, EntriesTrue, LiveIndexed,
      NoDuplicates, ImsisKnown;
    match op
    case AttachOp(newId, imsi, guti) => AttachStays(s, newId, imsi, guti, g);
    case DetachOp(imsi, guti) => DetachStays(s, imsi, guti, g);
    case ServiceOp(_, _) =>
    case TauOp(guti, updateType) =>
      if Tau(s, guti, updateType).0 != s { ReallocateStays(s, s.byGuti[guti], g); }
  }

  lemma OutdatedStays(s: State, op: Op)
    requires Consistent(s) && Outdated(s) && Fresh(s, op)
    ensures Outdated(Step(s, op).0)
  {
    var g :| OutdatedAt(s, g);
    OutdatedEntryStays(s, op, g);
  }

  lemma StepKeepsCleanOrOutdates(s: State, op: Op)
    requires Consistent(s) && Clean(s) && Fresh(s, op)
    ensures if Finds(s, op) then Outdated(Step(s, op).0) else Clean(Step(s, op).0)
  {
    hide Consistent, Clean, Outdated;
    match op
    case AttachOp(newId, imsi, guti) =>
      if Lookup(s, imsi, guti).None? {
        FirstAttachKeepsClean(s, newId, imsi, guti);
      } else {
        SecondAttachIsOutdated(s, newId, imsi, guti);
      }
    case DetachOp(imsi, guti) => DetachKeepsClean(s, imsi, guti);
    case ServiceOp(_, _) =>
    case TauOp(guti, updateType) => TauKeepsClean(s, guti, updateType);
  }

  lemma {:induction false} CleanOrOutdated(ops: seq<Op>)
    requires FreshIds(ops)
    ensures if AttachesOnlyNew(ops) then Clean(Run(ops)) else Outdated(Run(ops))
  {
    if ops == [] {
    } else {
      var before, last := ops[..|ops| - 1], ops[|ops| - 1];
      assert ops == before + [last];
      OneMoreCall(before, last);
      RunOneMore(before, last);
      RunKeeps(before);
      CleanOrOutdated(before);
      hide *;
      if AttachesOnlyNew(before) {
        StepKeepsCleanOrOutdates(Run(before), last);
      } else {
        OutdatedStays(Run(before), last);
      }
    }
  }

  /** A run ends without a stale GUTI in the index exactly when none of its attaches found an existing
      context; whatever detaches and updates came between, a stale GUTI never goes away again. */
  lemma NoStaleExactly(ops: seq<Op>)
    requires FreshIds(ops)
    ensures NoStale(Run(ops)) <==> AttachesOnlyNew(ops)
  {
    CleanOrOutdated(ops);
    if !AttachesOnlyNew(ops) { OutdatedIsStale(Run(ops)); }
  }

  /** And then no subscriber has two live contexts, and any GUTI or IMSI that finds a context finds a live one. */
  lemma NoStaleMeansOneContextEach(ops: seq<Op>, p: UeId, q: UeId)
    requires FreshIds(ops) && NoStale(Run(ops)) && p in Run(ops).live && q in Run(ops).live
    ensures p in Run(ops).contexts && q in Run(ops).contexts
    ensures Run(ops).contexts[p].imsi == Run(ops).contexts[q].imsi ==> p == q
    ensures forall imsi, guti | Lookup(Run(ops), imsi, guti).Some? ::
            Lookup(Run(ops), imsi, guti).value in Run(ops).live
  {
    NoStaleExactly(ops);
    CleanOrOutdated(ops);
    hide Run;
  }

  /** A subscriber attaches twice: one context, both GUTIs in the index. */
  lemma AttachedTwice(imsi: string, id: UeId, other: UeId)
    requires imsi != "" && id != other
    ensures var s := Run([AttachOp(id, imsi, None), AttachOp(other, imsi, None)]);
            s == State(2, map[id := Ue(imsi, Some(GutiOf(2)), 0, true)], [id], map[imsi := id],
                       map[GutiOf(1) := id, GutiOf(2) := id], map[GutiOf(1) := id, GutiOf(2) := id])
  {
    var a1, a2 := AttachOp(id, imsi, None), AttachOp(other, imsi, None);
    hide GutiOf;
    RunOneMore([], a1);
    RunOneMore([a1], a2);
    assert [] + [a1] == [a1] && [a1] + [a2] == [a1, a2];
    assert Run([a1]) ==
           State(1, map[id := Ue(imsi, Some(GutiOf(1)), 0, true)], [id], map[imsi := id], map[GutiOf(1) := id],
                 map[GutiOf(1) := id]);
  }

  /** After the detach the first GUTI still names the removed context. */
  lemma StaleGutiStays(imsi: string, id: UeId, other: UeId)
    requires imsi != "" && id != other
    ensures var s := Run([AttachOp(id, imsi, None), AttachOp(other, imsi, None)] + [DetachOp(imsi, None)]);
            s == State(2, map[id := Ue(imsi, Some(GutiOf(2)), 0, false)], [], map[], map[GutiOf(1) := id],
                       map[GutiOf(1) := id, GutiOf(2) := id])
  {
    AttachedTwice(imsi, id, other);
    if GutiOf(1) == GutiOf(2) { GutisAreDistinct(1, 2); }
    RunOneMore([AttachOp(id, imsi, None), AttachOp(other, imsi, None)], DetachOp(imsi, None));
    hide GutiOf, Run, Detach;
    DetachLeavesStale(imsi, id, GutiOf(1), GutiOf(2));
  }

  lemma DetachLeavesStale(imsi: string, id: UeId, first: Guti, second: Guti)
    requires imsi != "" && first != second
    ensures var both := map[first := id, second := id];
            var attached := State(2, map[id := Ue(imsi, Some(second), 0, true)], [id], map[imsi := id], both, both);
            Detach(attached, imsi, None).0 ==
            State(2, map[id := Ue(imsi, Some(second), 0, false)], [], map[], map[first := id], both)
  {
    assert Without([id], id) == [];
    assert map[imsi := id] - {imsi} == map[];
    assert map[first := id, second := id] - {second} == map[first := id];
  }

  /** So a GUTI from before a second attach outlives the detach: attaching by it brings the detached context
      back, beside the one that the subscriber has by then. */
  lemma StaleGutiRevives(imsi: string, id: UeId, other: UeId, unused: UeId)
    requires imsi != "" && id != other
    ensures var ops := [AttachOp(id, imsi, None), AttachOp(other, imsi, None)] + [DetachOp(imsi, None)];
            var s := Run(ops + [AttachOp(other, imsi, None)] + [AttachOp(unused, "", Some(GutiOf(1)))]);
            id !in Run(ops).live && s.live == [other, id] && id in s.contexts && other in s.contexts &&
            s.contexts[id].imsi == s.contexts[other].imsi == imsi
  {
    var ops := [AttachOp(id, imsi, None), AttachOp(other, imsi, None)] + [DetachOp(imsi, None)];
    var again, stale := AttachOp(other, imsi, None), AttachOp(unused, "", Some(GutiOf(1)));
    StaleGutiStays(imsi, id, other);
    RunOneMore(ops, again);
    RunOneMore(ops + [again], stale);
    if GutiOf(1) == GutiOf(3) { GutisAreDistinct(1, 3); }
    hide Run, GutiOf;
    AttachRevives(Run(ops), imsi, id, other, unused);
  }

  /** Two attaches after that detach, the second one by the GUTI that stayed. */
  lemma AttachRevives(s: State, imsi: string, id: UeId, other: UeId, unused: UeId)
    requires imsi != "" && id != other && s.counter == 2 && s.contexts.Keys == {id} && s.contexts[id].imsi == imsi
    requires s.live == [] && s.byImsi == map[] && s.byGuti == map[GutiOf(1) := id] && GutiOf(1) != GutiOf(3)
    ensures var s' := Attach(Attach(s, other, imsi, None).0, unused, "", Some(GutiOf(1))).0;
            s'.live == [other, id] && id in s'.contexts && other in s'.contexts &&
            s'.contexts[id].imsi == s'.contexts[other].imsi == imsi
  {
    hide GutiOf;
    var s1 := Attach(s, other, imsi, None).0;
    assert s1.live == [other] && s1.contexts == s.contexts[other := Ue(imsi, Some(GutiOf(3)), 0, true)];
    assert s1.byGuti[GutiOf(1)] == id;
  }

  // ---------- what the requests answer ----------

  ghost predicate KeySetsZero(contexts: map<UeId, Ue>) {
    forall id | id in contexts :: contexts[id].ksi == 0
  }

  lemma StepKeepsKeySets(s: State, op: Op)
    requires KeySetsZero(s.contexts)
    ensures KeySetsZero(Step(s, op).0.contexts)
  {
    hide GutiOf, Lookup, Reallocates, Without, Scan;
  }

  /** Every attach makes key set 0, and nothing else changes it. */
  lemma {:induction false} RunKeepsKeySets(ops: seq<Op>)
    ensures KeySetsZero(Run(ops).contexts)
  {
    if ops == [] {
    } else {
      RunKeepsKeySets(ops[..|ops| - 1]);
      StepKeepsKeySets(Run(ops[..|ops| - 1]), ops[|ops| - 1]);
      hide Step, KeySetsZero;
    }
  }

  /** On every run a service request is accepted exactly when the index sends the GUTI with its M-TMSI to a live
      UE for which it is current, and the key set is 0; without such a UE the cause is 10, with another key set
      it is 9, and nothing changes. */
  lemma ServiceAnswersExactly(ops: seq<Op>, mTmsi: string, ksi: int, id: UeId)
    requires FreshIds(ops)
    ensures var s, g := Run(ops), GutiFor(mTmsi);
            var (s', answer) := Step(s, ServiceOp(mTmsi, ksi));
            var current :=
              g in s.byGuti && s.byGuti[g] in s.live && s.byGuti[g] in s.contexts &&
              s.contexts[s.byGuti[g]].guti == Some(g);
            && s' == s
            && (answer == ServiceAccept(id) <==> current && s.byGuti[g] == id && ksi == 0)
            && (answer == ServiceReject(10) <==> !current)
            && (answer == ServiceReject(9) <==> current && ksi != 0)
  {
    RunKeeps(ops);
    RunKeepsKeySets(ops);
    var s := Run(ops);
    ScanIsIndex(s, mTmsi);
    assert forall p | p in s.live :: p in s.contexts;
    hide Scan, Run, Consistent;
  }

  /** What the request names: an IMSI that is indexed, or without an IMSI a GUTI that is. */
  predicate Known(s: State, imsi: string, guti: Option<Guti>) {
    if imsi != "" then imsi in s.byImsi else guti.Some? && guti.value in s.byGuti
  }

  function Named(s: State, imsi: string, guti: Option<Guti>): UeId
    requires Known(s, imsi, guti)
  {
    if imsi != "" then s.byImsi[imsi] else s.byGuti[guti.value]
  }

  /** The GUTI of the next number, in the MME's own network and pool. */
  predicate IsNext(s: State, s': State, g: Guti) {
    s'.counter == s.counter + 1 && g == Guti("00101", 1, 1, Hex.Format08(s'.counter))
  }

  ghost predicate Attached(s: State, s': State, id: UeId, g: Guti, imsi: string) {
    var own := if id in s.contexts then s.contexts[id].imsi else imsi;
    && IsNext(s, s', g) && s'.contexts == s.contexts[id := Ue(own, Some(g), 0, true)]
    && (forall p :: p in s'.live <==> p in s.live || p == id)
    && s'.byGuti == s.byGuti[g := id] && s'.issued == s.issued[g := id]
    && s'.byImsi == (if own != "" then s.byImsi[own := id] else s.byImsi)
  }

  lemma EnteredIsAttached(s: State, id: UeId, imsi: string)
    ensures var ue := if id in s.contexts then s.contexts[id] else Ue(imsi, None, 0, false);
            Attached(s, Enter(s, id, ue.(ksi := 0, registered := true)), id, GutiOf(s.counter + 1), imsi)
  {
    assert IsNext(s, s.(counter := s.counter + 1), GutiOf(s.counter + 1));
    hide GutiOf;
  }

  /** An attach asks for the identity exactly when it has no IMSI and its GUTI names nobody. Otherwise it takes
      the context that is named, or a new one of the IMSI, registers it with key set 0 and a GUTI never issued
      before, and enters it under that GUTI and its own IMSI; every other context and key stays. */
  lemma AttachAnswersExactly(s: State, newId: UeId, imsi: string, guti: Option<Guti>)
    requires Consistent(s) && newId !in s.contexts
    ensures var (s', answer) := Attach(s, newId, imsi, guti);
            && (answer == IdentityRequired <==> imsi == "" && !Known(s, imsi, guti))
            && (answer == IdentityRequired ==> s' == s)
            && (answer != IdentityRequired ==>
                  && answer.AttachAccept?
                  && answer.ue == (if Known(s, imsi, guti) then Named(s, imsi, guti) else newId)
                  && answer.guti !in s.issued && Attached(s, s', answer.ue, answer.guti, imsi))
  {
    NextIsNew(s);
    LookupIsKnown(s, imsi, guti);
    hide GutiOf, Consistent, Enter, Attached;
    assert Lookup(s, imsi, guti) == if Known(s, imsi, guti) then Some(Named(s, imsi, guti)) else None;
    if Known(s, imsi, guti) {
      EnteredIsAttached(s, Named(s, imsi, guti), imsi);
    } else if imsi != "" {
      EnteredIsAttached(s, newId, imsi);
    }
    hide Lookup, Known, Named;
  }

  ghost predicate Detached(s: State, s': State, id: UeId) {
    && id in s.contexts && s.contexts[id].guti.Some?
    && s'.contexts == s.contexts[id := s.contexts[id].(registered := false)]
    && (forall p :: p in s'.live <==> p in s.live && p != id)
    && s'.byImsi == (if id in s.live then s.byImsi - {s.contexts[id].imsi} else s.byImsi)
    && s'.byGuti == (if id in s.live then s.byGuti - {s.contexts[id].guti.value} else s.byGuti)
  }

  lemma RemovedIsDetached(s: State, id: UeId)
    requires CurrentTrue(s.contexts, s.issued) && NoDuplicates(s.live) && id in s.contexts
    ensures Detached(s, Remove(s.(contexts := s.contexts[id := s.contexts[id].(registered := false)]), id), id)
  {
    if id in s.live { WithoutMembers(s.live, id); }
    hide Without, NoDuplicates;
  }

  /** A detach fails exactly when nobody is named. The one named is no longer registered nor live; if it was live
      its IMSI and its current GUTI leave the indexes, and every other context and key stays. */
  lemma DetachAnswersExactly(s: State, imsi: string, guti: Option<Guti>)
    requires Consistent(s)
    ensures var (s', answer) := Detach(s, imsi, guti);
            && (answer == NotFound <==> !Known(s, imsi, guti)) && (answer == NotFound ==> s' == s)
            && (answer != NotFound ==> answer == DetachAccept(Named(s, imsi, guti)) && Detached(s, s', answer.ue))
  {
    LookupIsKnown(s, imsi, guti);
    hide FromCounter, EntriesTrue, LiveIndexed, ImsisKnown, GutiOf;
    if Known(s, imsi, guti) {
      RemovedIsDetached(s, Named(s, imsi, guti));
      hide Remove, Detached, CurrentTrue, NoDuplicates;
    }
  }

  ghost predicate Moved(s: State, s': State, id: UeId, g: Guti) {
    && id in s.contexts && s.contexts[id].guti.Some?
    && IsNext(s, s', g) && s'.contexts == s.contexts[id := s.contexts[id].(guti := Some(g))]
    && s'.live == s.live && s'.byImsi == s.byImsi && s'.issued == s.issued[g := id]
    && s'.byGuti == (s.byGuti - {s.contexts[id].guti.value})[g := id]
  }

  /** An update is rejected exactly when its GUTI names nobody. The two kinds that report a new area replace the
      current GUTI of the one named, and its key, by a GUTI never issued before; the others answer the current
      one and change nothing. */
  lemma TauAnswersExactly(s: State, guti: Guti, updateType: string)
    requires Consistent(s)
    ensures var (s', answer) := Tau(s, guti, updateType);
            && (answer == TauReject <==> guti !in s.byGuti) && (answer == TauReject ==> s' == s)
            && (answer != TauReject ==>
                  && answer.TauAccept? && answer.ue == s.byGuti[guti] && answer.ue in s.contexts
                  && (updateType !in {"TA_UPDATING", "COMBINED_TA_LA_UPDATING"} ==>
                        s' == s && s.contexts[answer.ue].guti == Some(answer.guti))
                  && (updateType in {"TA_UPDATING", "COMBINED_TA_LA_UPDATING"} ==>
                        answer.guti !in s.issued && Moved(s, s', answer.ue, answer.guti)))
  {
    NextIsNew(s);
    assert guti in s.byGuti ==> s.byGuti[guti] in s.contexts && s.contexts[s.byGuti[guti]].guti.Some?;
    assert IsNext(s, s.(counter := s.counter + 1), GutiOf(s.counter + 1));
    hide GutiOf, Consistent;
  }

  // ---------- the service ----------

  class MmeContext {
    var counter: nat
    var contexts: map<UeId, Ue>
    var live: seq<UeId>
    var byImsi: map<string, UeId>
    var byGuti: map<Guti, UeId>
    ghost var issued: map<Guti, UeId>

    ghost function View(): State reads this { State(counter, contexts, live, byImsi, byGuti, issued) }

    ghost predicate Valid() reads this { Consistent(View()) }

    constructor ()
      ensures Valid() && View() == Empty()
    {
      counter, contexts, live, byImsi, byGuti, issued := 0, map[], [], map[], map[], map[];
    }

    method AllocateGuti() returns (guti: Guti)
      modifies this`counter
      ensures counter == old(counter) + 1 && guti == GutiOf(counter)
    {
      counter := counter + 1;
      guti := Guti(PLMN, GROUP, CODE, Hex.Format08(counter));
    }

    method FindUe(imsi: string, guti: Option<Guti>) returns (found: Option<UeId>)
      ensures found == Lookup(View(), imsi, guti)
    {
      found := None;
      if imsi != "" {
        if imsi in byImsi { found := Some(byImsi[imsi]); }
      } else if guti.Some? {
        if guti.value in byGuti { found := Some(byGuti[guti.value]); }
      }
    }

    method AddUe(id: UeId)
      requires id in contexts && contexts[id].guti.Some?
      modifies this`live, this`byImsi, this`byGuti, this`issued
      ensures live == (if id in old(live) then old(live) else old(live) + [id])
      ensures byImsi == (if contexts[id].imsi == "" then old(byImsi) else old(byImsi)[contexts[id].imsi := id])
      ensures byGuti == old(byGuti)[contexts[id].guti.value := id]
      ensures issued == old(issued)[contexts[id].guti.value := id]
    {
      if id !in live { live := live + [id]; }
      if contexts[id].imsi != "" { byImsi := byImsi[contexts[id].imsi := id]; }
      byGuti := byGuti[contexts[id].guti.value := id];
      issued := issued[contexts[id].guti.value := id];
    }

    method EmmAttachRequest(newId: UeId, imsi: string, guti: Option<Guti>) returns (answer: Answer)
      requires Valid() && newId !in contexts
      modifies this
      ensures Valid()
      ensures (View(), answer) == Attach(old(View()), newId, imsi, guti)
    {
      hide Consistent, GutiOf;
      AttachKeeps(View(), newId, imsi, guti);
      LookupIsKnown(View(), imsi, guti);
      var found := FindUe(imsi, guti);
      hide Lookup;
      if found.None? && imsi == "" { return IdentityRequired; }
      var id := if found.Some? then found.value else newId;
      var ue := if found.Some? then contexts[id] else Ue(imsi, None, 0, false);
      var g := AllocateGuti();
      contexts := contexts[id := ue.(ksi := 0, registered := true, guti := Some(g))];
      AddUe(id);
      answer := AttachAccept(id, g);
    }

    method RemoveUe(id: UeId)
      requires Valid()
      modifies this`live, this`byImsi, this`byGuti
      ensures View() == Remove(old(View()), id)
    {
      if id !in live { return; }
      assert id in contexts by { hide FromCounter, EntriesTrue, CurrentTrue, NoDuplicates, ImsisKnown; }
      hide Consistent;
      var ue := contexts[id];
      live := Without(live, id);
      assert ue.imsi !in byImsi ==> byImsi - {ue.imsi} == byImsi;
      if ue.imsi in byImsi { byImsi := byImsi - {ue.imsi}; }
      if ue.guti.Some? {
        ghost var before := byGuti;
        if ue.guti.value in byGuti { byGuti := byGuti - {ue.guti.value}; }
        assert byGuti == before - {ue.guti.value};
      }
    }

    method EmmDetachRequest(imsi: string, guti: Option<Guti>) returns (answer: Answer)
      requires Valid()
      modifies this
      ensures Valid()
      ensures (View(), answer) == Detach(old(View()), imsi, guti)
    {
      hide Consistent, Remove;
      DetachKeeps(View(), imsi, guti);
      LookupIsKnown(View(), imsi, guti);
      var found := FindUe(imsi, guti);
      hide Lookup;
      if found.None? { return NotFound; }
      var id := found.value;
      MarkKeeps(View(), id);
      contexts := contexts[id := contexts[id].(registered := false)];
      RemoveUe(id);
      answer := DetachAccept(id);
    }

    method EmmServiceRequest(mTmsi: string, ksi: int) returns (answer: Answer)
      requires Valid()
      ensures answer == ServiceRequest(View(), mTmsi, ksi)
    {
      var found: Option<UeId> := None;
      var i := 0;
      while i < |live|
        invariant 0 <= i <= |live|
        invariant found.None?
        invariant Scan(View(), live, mTmsi) == Scan(View(), live[i..], mTmsi)
      {
        var id := live[i];
        assert live[i..][1..] == live[i + 1..];
        if contexts[id].guti.Some? && contexts[id].guti.value.mTmsi == mTmsi {
          found := Some(id);
          break;
        }
        i := i + 1;
      }
      hide Consistent;
      assert found == Scan(View(), live, mTmsi);
      if found.None? { return ServiceReject(10); }
      if contexts[found.value].ksi != ksi { return ServiceReject(9); }
      answer := ServiceAccept(found.value);
    }

    method EmmTauRequest(guti: Guti, updateType: string) returns (answer: Answer)
      requires Valid()
      modifies this
      ensures Valid()
      ensures (View(), answer) == Tau(old(View()), guti, updateType)
    {
      TauKeeps(View(), guti, updateType);
      if guti !in byGuti { return TauReject; }
      var id := byGuti[guti];
      assert id in contexts && contexts[id].guti.Some? by { hide FromCounter, NoDuplicates, LiveIndexed, GutiOf; }
      hide Consistent, GutiOf;
      if !Reallocates(updateType) { return TauAccept(id, contexts[id].guti.value); }
      hide Reallocates, Reallocate;
      var g := ReallocateGuti(id);
      answer := TauAccept(id, g);
    }

    method ReallocateGuti(id: UeId) returns (g: Guti)
      requires id in contexts && contexts[id].guti.Some?
      modifies this`counter, this`contexts, this`byGuti, this`issued
      ensures View() == Reallocate(old(View()), id) && g == GutiOf(counter)
    {
      hide GutiOf;
      var current := contexts[id].guti.value;
      ghost var before := byGuti;
      if current in byGuti { byGuti := byGuti - {current}; }
      assert byGuti == before - {current};
      g := AllocateGuti();
      contexts := contexts[id := contexts[id].(guti := Some(g))];
      byGuti := byGuti[g := id];
      issued := issued[g := id];
    }
  }
}
