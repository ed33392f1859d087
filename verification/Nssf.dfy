/** Slice selection for a registration (5G_Emulator_API/core_network/nssf.py). An optional list that is
    absent is the empty list: the code only ever asks whether such a list is truthy. */
module Nssf {
  import opened Common

  datatype Snssai = Snssai(sst: int, sd: Option<string>)
  datatype Plmn = Plmn(mcc: string, mnc: string)
  datatype Tai = Tai(plmn: Plmn, tac: string)
  datatype Subscribed = Subscribed(snssai: Snssai, isDefault: bool)
  datatype Mapping = Mapping(serving: Snssai, home: Snssai)
  datatype NfType = AMF | NSSF | OtherNf

  datatype SliceInfo = SliceInfo(
    subscribed: seq<Subscribed>, requested: seq<Snssai>, mappings: seq<Mapping>,
    defaultConfigured: bool, requestMapping: bool)

  datatype Config = Config(
    plmns: seq<Plmn>, tais: seq<Tai>, inPlmn: map<Plmn, seq<Snssai>>, inTa: map<Tai, seq<Snssai>>,
    nsi: map<Snssai, seq<string>>)

  datatype Allowed = Allowed(snssai: Snssai, nsi: seq<string>, mappedHome: Option<Snssai>)

  datatype Selection = Selection(
    allowed: seq<Allowed>, rejectedInPlmn: seq<Snssai>, rejectedInTa: seq<Snssai>, configured: seq<Snssai>)

  datatype Answer = Forbidden | MappingRequest | Selected(selection: Selection)

  /** What one registration asks. */
  datatype Context = Context(config: Config, info: SliceInfo, tai: Option<Tai>, home: Option<Plmn>)

  // ---------- the rule ----------

  predicate Standard(s: Snssai) { s.sst in {1, 2, 3} && s.sd == None }

  predicate InPlmn(c: Config, s: Snssai, plmn: Plmn) { plmn in c.inPlmn && s in c.inPlmn[plmn] }

  /** A tracking area without a table of its own has the slices of its PLMN. */
  predicate InTa(c: Config, s: Snssai, tai: Tai) {
    if tai in c.inTa then s in c.inTa[tai] else InPlmn(c, s, tai.plmn)
  }

  predicate Available(c: Context, s: Snssai) { c.tai.Some? ==> InTa(c.config, s, c.tai.value) }

  /** A roamer's non-standard slice is subscribed through the mapping to the home slice. */
  predicate NeedsMapping(c: Context, s: Snssai) { c.home.Some? && !Standard(s) }

  predicate Mapped(c: Context, s: Snssai, home: Snssai) { Mapping(s, home) in c.info.mappings }

  predicate SubscribedAs(c: Context, s: Snssai, sub: Snssai) {
    if NeedsMapping(c, s) then Mapped(c, s, sub) else sub == s
  }

  ghost predicate IsSubscribed(c: Context, s: Snssai) {
    exists sub :: sub in c.info.subscribed && SubscribedAs(c, s, sub.snssai)
  }

  datatype Verdict = Granted | NotSubscribed | NotInTa

  ghost function Judge(c: Context, s: Snssai): Verdict {
    if !Available(c, s) then NotInTa else if IsSubscribed(c, s) then Granted else NotSubscribed
  }

  /** The requested slices with a given verdict, in the order of the request. */
  ghost function Judged(c: Context, requested: seq<Snssai>, v: Verdict): seq<Snssai> {
    if requested == [] then []
    else
      var n := |requested| - 1;
      Judged(c, requested[..n], v) + if Judge(c, requested[n]) == v then [requested[n]] else []
  }

  /** The last subscribed slice that the request maps to. */
  function MappedHome(c: Context, s: Snssai, subscribed: seq<Subscribed>): Option<Snssai> {
    if subscribed == [] || !NeedsMapping(c, s) then None
    else if Mapped(c, s, subscribed[|subscribed| - 1].snssai) then Some(subscribed[|subscribed| - 1].snssai)
    else MappedHome(c, s, subscribed[..|subscribed| - 1])
  }

  function Nsi(c: Config, s: Snssai): seq<string> { if s in c.nsi then c.nsi[s] else [] }

  function Grant(c: Context, s: Snssai): Allowed { Allowed(s, Nsi(c.config, s), MappedHome(c, s, c.info.subscribed)) }

  function Grants(c: Context, slices: seq<Snssai>): seq<Allowed> {
    seq(|slices|, (i: nat) requires i < |slices| => Grant(c, slices[i]))
  }

  predicate Offered(c: Context, sub: Subscribed) { sub.isDefault && Available(c, sub.snssai) }

  /** The default subscribed slices that the tracking area has. */
  function Defaults(c: Context, subscribed: seq<Subscribed>): seq<Allowed> {
    if subscribed == [] then []
    else
      var n := |subscribed| - 1;
      var last := subscribed[n];
      Defaults(c, subscribed[..n]) +
      if Offered(c, last) then [Allowed(last.snssai, Nsi(c.config, last.snssai), None)] else []
  }

  function Configured(c: Context, subscribed: seq<Subscribed>): seq<Snssai> {
    if subscribed == [] then []
    else
      var n := |subscribed| - 1;
      Configured(c, subscribed[..n]) +
      if c.tai.None? || InPlmn(c.config, subscribed[n].snssai, c.tai.value.plmn) then [subscribed[n].snssai] else []
  }

  ghost function Select(c: Context): Selection {
    var granted := Grants(c, Judged(c, c.info.requested, Granted));
    var rejectedInPlmn := Judged(c, c.info.requested, NotSubscribed);
    Selection(
      if granted == [] then Defaults(c, c.info.subscribed) else granted,
      rejectedInPlmn,
      Judged(c, c.info.requested, NotInTa),
      if c.info.defaultConfigured || rejectedInPlmn != [] then Configured(c, c.info.subscribed) else [])
  }

  ghost function SelectForRegistration(c: Context, nf: NfType): Answer {
    if nf == OtherNf then Forbidden
    else if c.home.Some? && c.home.value !in c.config.plmns then Selected(Selection([], c.info.requested, [], []))
    else if c.tai.Some? && c.tai.value !in c.config.tais then Selected(Selection([], [], c.info.requested, []))
    else if c.info.requestMapping && c.home.Some? then MappingRequest
    else Selected(Select(c))
  }

  // ---------- the partition ----------

  ghost predicate Ascending(indices: seq<nat>) { forall i, j | 0 <= i < j < |indices| :: indices[i] < indices[j] }

  /** The slices with a verdict are those at an ascending list of places, and these are exactly the places
      of the request where the rule gives that verdict. */
  lemma {:induction false} JudgedIsSubsequence(c: Context, requested: seq<Snssai>, v: Verdict)
    returns (places: seq<nat>)
    ensures Ascending(places) && |places| == |Judged(c, requested, v)|
    ensures forall k | 0 <= k < |places| ::
            places[k] < |requested| && Judged(c, requested, v)[k] == requested[places[k]]
    ensures forall i | 0 <= i < |requested| :: i in places <==> Judge(c, requested[i]) == v
  {
    hide Judge;
    if requested == [] {
      places := [];
    } else {
      var n := |requested| - 1;
      var before := JudgedIsSubsequence(c, requested[..n], v);
      if Judge(c, requested[n]) == v {
        places := before + [n];
        assert forall i | 0 <= i < n :: i in places <==> i in before;
        assert places[|before|] == n;
      } else {
        places := before;
        assert n !in before;
      }
    }
  }

  lemma {:induction false} JudgedMember(c: Context, requested: seq<Snssai>, v: Verdict, s: Snssai)
    ensures s in Judged(c, requested, v) <==> s in requested && Judge(c, s) == v
  {
    hide Judge;
    if requested == [] {
    } else {
      JudgedMember(c, requested[..|requested| - 1], v, s);
      assert requested == requested[..|requested| - 1] + [requested[|requested| - 1]];
    }
  }

  lemma CountOneMore<T>(list: seq<T>, x: T, y: T)
    ensures multiset(list + [x])[y] == multiset(list)[y] + if x == y then 1 else 0
  {}

  /** Each list has a slice as often as the request, or not at all. */
  lemma {:induction false} JudgedCount(c: Context, requested: seq<Snssai>, v: Verdict, s: Snssai)
    ensures multiset(Judged(c, requested, v))[s] == if Judge(c, s) == v then multiset(requested)[s] else 0
  {
    hide Judge;
    if requested == [] {
    } else {
      var n := |requested| - 1;
      var before, last := requested[..n], requested[n];
      JudgedCount(c, before, v, s);
      assert requested == before + [last];
      CountOneMore(before, last, s);
      CountOneMore(Judged(c, before, v), last, s);
      assert Judged(c, requested, v) == Judged(c, before, v) + if Judge(c, last) == v then [last] else [];
      hide Judged;
    }
  }

  /** The three lists share out the request: every occurrence goes to exactly one of them. */
  lemma VerdictsConserve(c: Context, requested: seq<Snssai>)
    ensures multiset(Judged(c, requested, Granted)) + multiset(Judged(c, requested, NotSubscribed)) +
            multiset(Judged(c, requested, NotInTa)) == multiset(requested)
  {
    forall s ensures multiset(requested)[s] == multiset(Judged(c, requested, Granted))[s] +
      multiset(Judged(c, requested, NotSubscribed))[s] + multiset(Judged(c, requested, NotInTa))[s]
    {
      JudgedCount(c, requested, Granted, s);
      JudgedCount(c, requested, NotSubscribed, s);
      JudgedCount(c, requested, NotInTa, s);
    }
  }

  /** The i-th subscribed slice is the last one that the request maps to. */
  ghost predicate LastMapped(c: Context, s: Snssai, subscribed: seq<Subscribed>, i: int) {
    && 0 <= i < |subscribed| && Mapped(c, s, subscribed[i].snssai)
    && forall j | i < j < |subscribed| :: !Mapped(c, s, subscribed[j].snssai)
  }

  lemma {:induction false} MappedHomeAt(c: Context, s: Snssai, subscribed: seq<Subscribed>) returns (i: int)
    requires NeedsMapping(c, s)
    ensures -1 <= i < |subscribed| && forall j | i < j < |subscribed| :: !Mapped(c, s, subscribed[j].snssai)
    ensures if i == -1 then MappedHome(c, s, subscribed) == None
            else Mapped(c, s, subscribed[i].snssai) && MappedHome(c, s, subscribed) == Some(subscribed[i].snssai)
  {
    hide Mapped, NeedsMapping;
    var n := |subscribed| - 1;
    if subscribed == [] {
      i := -1;
    } else if Mapped(c, s, subscribed[n].snssai) {
      i := n;
    } else {
      i := MappedHomeAt(c, s, subscribed[..n]);
    }
  }

  /** The home slice of a grant: none for a non-roamer or a standard slice, otherwise the last subscribed
      slice that the request maps to. */
  lemma MappedHomeIsLast(c: Context, s: Snssai, subscribed: seq<Subscribed>)
    ensures !NeedsMapping(c, s) ==> MappedHome(c, s, subscribed) == None
    ensures NeedsMapping(c, s) && MappedHome(c, s, subscribed) == None ==>
              forall i | 0 <= i < |subscribed| :: !Mapped(c, s, subscribed[i].snssai)
    ensures MappedHome(c, s, subscribed).Some? ==>
              exists i :: LastMapped(c, s, subscribed, i) && subscribed[i].snssai == MappedHome(c, s, subscribed).value
  {
    if NeedsMapping(c, s) {
      var i := MappedHomeAt(c, s, subscribed);
      assert 0 <= i ==> LastMapped(c, s, subscribed, i);
      hide Mapped, MappedHome;
    }
  }

  lemma {:induction false} DefaultsMember(c: Context, subscribed: seq<Subscribed>, s: Snssai)
    ensures (exists a | a in Defaults(c, subscribed) :: a.snssai == s) <==>
            (exists sub | sub in subscribed :: sub.snssai == s && Offered(c, sub))
  {
    hide Offered;
    if subscribed == [] {
    } else {
      var n := |subscribed| - 1;
      var last := subscribed[n];
      DefaultsMember(c, subscribed[..n], s);
      assert subscribed == subscribed[..n] + [last];
      var before := Defaults(c, subscribed[..n]);
      if Offered(c, last) {
        assert Defaults(c, subscribed) == before + [Allowed(last.snssai, Nsi(c.config, last.snssai), None)];
        if last.snssai == s { assert Defaults(c, subscribed)[|before|].snssai == s; }
      }
      if a :| a in before && a.snssai == s { assert a in Defaults(c, subscribed); }
      if sub :| sub in subscribed[..n] && sub.snssai == s && Offered(c, sub) { assert sub in subscribed; }
    }
  }

  /** The area's PLMN, if there is an area, has the slice. */
  predicate PlmnHas(c: Context, s: Snssai) { c.tai.None? || InPlmn(c.config, s, c.tai.value.plmn) }

  lemma {:induction false} ConfiguredMember(c: Context, subscribed: seq<Subscribed>, s: Snssai)
    ensures s in Configured(c, subscribed) <==> PlmnHas(c, s) && exists sub | sub in subscribed :: sub.snssai == s
  {
    if subscribed == [] {
    } else {
      var n := |subscribed| - 1;
      ConfiguredMember(c, subscribed[..n], s);
      assert subscribed == subscribed[..n] + [subscribed[n]];
      hide InPlmn;
      assert Configured(c, subscribed) ==
             Configured(c, subscribed[..n]) + if PlmnHas(c, subscribed[n].snssai) then [subscribed[n].snssai] else [];
      if subscribed[n].snssai == s { assert subscribed[n] in subscribed; }
      if sub :| sub in subscribed[..n] && sub.snssai == s { assert sub in subscribed; }
    }
  }

  /** The answer configures a slice exactly when it is subscribed and the area's PLMN has it, and either the
      default configuration was asked for or some requested slice is there but not subscribed. */
  lemma ConfiguredExactly(c: Context, s: Snssai)
    ensures s in Select(c).configured <==>
            && PlmnHas(c, s) && (exists sub | sub in c.info.subscribed :: sub.snssai == s)
            && (c.info.defaultConfigured || exists r :: r in c.info.requested && Judge(c, r) == NotSubscribed)
  {
    hide Judge, PlmnHas, Configured, Defaults, Grants;
    ConfiguredMember(c, c.info.subscribed, s);
    var rejected := Judged(c, c.info.requested, NotSubscribed);
    if rejected == [] {
      forall r | r in c.info.requested ensures Judge(c, r) != NotSubscribed {
        JudgedMember(c, c.info.requested, NotSubscribed, r);
      }
    } else {
      JudgedMember(c, c.info.requested, NotSubscribed, rejected[0]);
    }
  }

  // ---------- the lists never overlap ----------

  ghost predicate Allows(selection: Selection, s: Snssai) { exists a | a in selection.allowed :: a.snssai == s }

  ghost predicate Disjoint(selection: Selection) {
    forall s ::
      && !(Allows(selection, s) && s in selection.rejectedInPlmn)
      && !(Allows(selection, s) && s in selection.rejectedInTa)
      && !(s in selection.rejectedInPlmn && s in selection.rejectedInTa)
  }

  /** A default slice that a roamer asked for and whose mapping leads to no subscribed slice. */
  predicate Clashes(c: Context, sub: Subscribed) {
    && sub in c.info.subscribed && Offered(c, sub) && sub.snssai in c.info.requested && NeedsMapping(c, sub.snssai)
    && forall m | m in c.info.mappings && m.serving == sub.snssai ::
         forall t | t in c.info.subscribed :: t.snssai != m.home
  }

  lemma AllowsExactly(c: Context, s: Snssai)
    ensures Allows(Select(c), s) <==>
            if exists r :: r in c.info.requested && Judge(c, r) == Granted
            then s in c.info.requested && Judge(c, s) == Granted
            else exists sub | sub in c.info.subscribed :: sub.snssai == s && Offered(c, sub)
  {
    hide Judge, Offered, MappedHome, Nsi;
    var granted := Judged(c, c.info.requested, Granted);
    JudgedMember(c, c.info.requested, Granted, s);
    DefaultsMember(c, c.info.subscribed, s);
    if granted == [] {
      forall r | r in c.info.requested ensures Judge(c, r) != Granted { JudgedMember(c, c.info.requested, Granted, r); }
    } else {
      JudgedMember(c, c.info.requested, Granted, granted[0]);
      assert Select(c).allowed == Grants(c, granted);
      if s in granted {
        var i :| 0 <= i < |granted| && granted[i] == s;
        assert Grants(c, granted)[i].snssai == s;
      }
    }
  }

  lemma ClashIsRejection(c: Context, sub: Subscribed)
    requires sub in c.info.subscribed && Offered(c, sub) && sub.snssai in c.info.requested
    ensures Clashes(c, sub) <==> Judge(c, sub.snssai) == NotSubscribed
  {
    var s := sub.snssai;
    if NeedsMapping(c, s) {
      if Clashes(c, sub) {
        forall t | t in c.info.subscribed ensures !SubscribedAs(c, s, t.snssai) {}
      } else {
        var m :| m in c.info.mappings && m.serving == s && exists t | t in c.info.subscribed :: t.snssai == m.home;
        var t :| t in c.info.subscribed && t.snssai == m.home;
        assert SubscribedAs(c, s, t.snssai);
      }
    } else {
      assert SubscribedAs(c, s, s);
    }
  }

  /** No slice is ever on two lists, except that for a roamer none of whose requested slices is granted the
      fallback may allow a default slice that was rejected a moment before. */
  lemma ListsAreDisjoint(c: Context)
    ensures Disjoint(Select(c)) <==>
            (exists r :: r in c.info.requested && Judge(c, r) == Granted) || forall sub :: !Clashes(c, sub)
  {
    hide Offered, Clashes;
    var selection := Select(c);
    var anyGranted := exists r :: r in c.info.requested && Judge(c, r) == Granted;
    forall s ensures s in selection.rejectedInPlmn <==> s in c.info.requested && Judge(c, s) == NotSubscribed {
      JudgedMember(c, c.info.requested, NotSubscribed, s);
    }
    forall s ensures s in selection.rejectedInTa <==> s in c.info.requested && Judge(c, s) == NotInTa {
      JudgedMember(c, c.info.requested, NotInTa, s);
    }
    forall s ensures Allows(selection, s) <==>
      if anyGranted then s in c.info.requested && Judge(c, s) == Granted
      else exists sub | sub in c.info.subscribed :: sub.snssai == s && Offered(c, sub)
    {
      AllowsExactly(c, s);
    }
    hide Select, Judged, Allows;
    if !anyGranted {
      forall sub | Clashes(c, sub) ensures !Disjoint(selection) {
        ClashParts(c, sub);
        ClashIsRejection(c, sub);
        assert Allows(selection, sub.snssai);
      }
      if !Disjoint(selection) {
        var s :| Allows(selection, s) && (s in selection.rejectedInPlmn || s in selection.rejectedInTa);
        var sub :| sub in c.info.subscribed && sub.snssai == s && Offered(c, sub);
        OfferedIsAvailable(c, sub);
        ClashIsRejection(c, sub);
      }
    }
  }

  lemma ClashParts(c: Context, sub: Subscribed)
    requires Clashes(c, sub)
    ensures sub in c.info.subscribed && Offered(c, sub) && sub.snssai in c.info.requested
  {}

  lemma OfferedIsAvailable(c: Context, sub: Subscribed)
    requires Offered(c, sub)
    ensures Judge(c, sub.snssai) != NotInTa
  {}

  /** So for a subscriber at home the three lists are always disjoint. */
  lemma HomeListsAreDisjoint(c: Context)
    requires c.home == None
    ensures Disjoint(Select(c))
  {
    hide Select, Disjoint;
    ListsAreDisjoint(c);
  }

  /** A roamer whose only slice is both default and non-standard is told that it is rejected and allowed. */
  lemma RoamerListsOverlap(config: Config, home: Plmn, s: Snssai, nf: NfType)
    requires !Standard(s)
    ensures var c := Context(config, SliceInfo([Subscribed(s, true)], [s], [], false, false), None, Some(home));
            && (home in config.plmns && nf != OtherNf ==> SelectForRegistration(c, nf) == Selected(Select(c)))
            && Allows(Select(c), s) && s in Select(c).rejectedInPlmn && !Disjoint(Select(c))
  {
    var c := Context(config, SliceInfo([Subscribed(s, true)], [s], [], false, false), None, Some(home));
    assert !IsSubscribed(c, s);
    JudgedMember(c, [s], NotSubscribed, s);
    AllowsExactly(c, s);
    assert Subscribed(s, true) in c.info.subscribed && Offered(c, Subscribed(s, true));
    hide Select, Judged, Allows;
  }

  // ---------- what the requests answer ----------

  /** An area is given and its table, or without one that of its PLMN, does not have the slice. */
  predicate Missing(c: Context, s: Snssai) {
    c.tai.Some? &&
    var tai := c.tai.value;
    if tai in c.config.inTa then s !in c.config.inTa[tai]
    else tai.plmn in c.config.inPlmn ==> s !in c.config.inPlmn[tai.plmn]
  }

  /** At home, and for a standard slice anywhere: the slice is not subscribed. For any other slice of a roamer: no
      mapping leads from it to a subscribed one. */
  ghost predicate Unsubscribed(c: Context, s: Snssai) {
    if c.home.None? || (1 <= s.sst <= 3 && s.sd == None) then forall sub | sub in c.info.subscribed :: sub.snssai != s
    else forall m, sub | m in c.info.mappings && sub in c.info.subscribed :: m.serving == s ==> m.home != sub.snssai
  }

  /** A grant names the instances of its slice, and for a roamer's non-standard slice a home slice that is
      subscribed and mapped to. */
  ghost predicate WellGranted(c: Context, a: Allowed) {
    && a.nsi == (if a.snssai in c.config.nsi then c.config.nsi[a.snssai] else [])
    && (c.home.None? || (1 <= a.snssai.sst <= 3 && a.snssai.sd == None) ==> a.mappedHome == None)
    && (c.home.Some? && !(1 <= a.snssai.sst <= 3 && a.snssai.sd == None) ==>
          a.mappedHome.Some? && Mapping(a.snssai, a.mappedHome.value) in c.info.mappings &&
          exists sub :: sub in c.info.subscribed && sub.snssai == a.mappedHome.value)
  }

  /** The whole answer, slice by slice. */
  ghost predicate SelectsBySlice(c: Context, sel: Selection) {
    && (forall s :: s in sel.rejectedInTa <==> s in c.info.requested && Missing(c, s))
    && (forall s :: s in sel.rejectedInPlmn <==> s in c.info.requested && !Missing(c, s) && Unsubscribed(c, s))
    && (if exists r :: r in c.info.requested && !Missing(c, r) && !Unsubscribed(c, r)
        then (forall s :: Allows(sel, s) <==> s in c.info.requested && !Missing(c, s) && !Unsubscribed(c, s)) &&
             (forall a | a in sel.allowed :: WellGranted(c, a))
        else (forall s :: Allows(sel, s) <==>
                exists sub :: sub in c.info.subscribed && sub.snssai == s && sub.isDefault && !Missing(c, s)) &&
             (forall a | a in sel.allowed :: a.mappedHome == None &&
                a.nsi == if a.snssai in c.config.nsi then c.config.nsi[a.snssai] else []))
    && (forall s :: s in sel.configured <==>
          && (exists sub :: sub in c.info.subscribed && sub.snssai == s)
          && (c.tai.Some? ==> c.tai.value.plmn in c.config.inPlmn && s in c.config.inPlmn[c.tai.value.plmn])
          && (c.info.defaultConfigured || sel.rejectedInPlmn != []))
  }

  lemma JudgedBySlice(c: Context, s: Snssai)
    ensures Judge(c, s) == if Missing(c, s) then NotInTa else if Unsubscribed(c, s) then NotSubscribed else Granted
  {
    if !Missing(c, s) {
      if NeedsMapping(c, s) {
        if Unsubscribed(c, s) {
          forall sub | sub in c.info.subscribed ensures !SubscribedAs(c, s, sub.snssai) {
            assert Mapping(s, sub.snssai) in c.info.mappings ==> Mapping(s, sub.snssai).home != sub.snssai;
          }
        } else {
          var m, sub :| m in c.info.mappings && sub in c.info.subscribed && m.serving == s && m.home == sub.snssai;
          assert m == Mapping(s, sub.snssai) && SubscribedAs(c, s, sub.snssai);
        }
      }
    }
  }

  lemma GrantIsWell(c: Context, s: Snssai)
    requires Judge(c, s) == Granted
    ensures WellGranted(c, Grant(c, s))
  {
    MappedHomeIsLast(c, s, c.info.subscribed);
    if NeedsMapping(c, s) {
      var sub :| sub in c.info.subscribed && SubscribedAs(c, s, sub.snssai);
      var i :| 0 <= i < |c.info.subscribed| && c.info.subscribed[i] == sub;
      assert Mapped(c, s, c.info.subscribed[i].snssai);
    }
    hide MappedHome;
  }

  lemma {:induction false} DefaultsAreWell(c: Context, subscribed: seq<Subscribed>)
    ensures forall a | a in Defaults(c, subscribed) :: a.mappedHome == None &&
              a.nsi == if a.snssai in c.config.nsi then c.config.nsi[a.snssai] else []
  {
    hide Offered;
    if subscribed == [] {
    } else {
      DefaultsAreWell(c, subscribed[..|subscribed| - 1]);
    }
  }

  lemma MissingIsUnavailable(c: Context, s: Snssai)
    ensures Available(c, s) <==> !Missing(c, s)
  {}

  /** The fallback lists the default slices that the area has, in the order of the subscription and once for each
      place there. */
  lemma {:induction false} FallbackIsSubsequence(c: Context, subscribed: seq<Subscribed>) returns (places: seq<nat>)
    ensures Ascending(places) && |places| == |Defaults(c, subscribed)|
    ensures forall k | 0 <= k < |places| ::
              places[k] < |subscribed| && Defaults(c, subscribed)[k].snssai == subscribed[places[k]].snssai
    ensures forall i | 0 <= i < |subscribed| ::
              i in places <==> subscribed[i].isDefault && !Missing(c, subscribed[i].snssai)
  {
    if subscribed == [] {
      places := [];
    } else {
      var n := |subscribed| - 1;
      var before := FallbackIsSubsequence(c, subscribed[..n]);
      MissingIsUnavailable(c, subscribed[n].snssai);
      hide Available, Missing;
      if Offered(c, subscribed[n]) {
        places := before + [n];
        assert forall i | 0 <= i < n :: i in places <==> i in before;
        assert places[|before|] == n;
      } else {
        places := before;
        assert n !in before;
      }
    }
  }

  /** So does the configured list, of the subscribed slices that the area's PLMN has. */
  lemma {:induction false} ConfiguredIsSubsequence(c: Context, subscribed: seq<Subscribed>) returns (places: seq<nat>)
    ensures Ascending(places) && |places| == |Configured(c, subscribed)|
    ensures forall k | 0 <= k < |places| ::
              places[k] < |subscribed| && Configured(c, subscribed)[k] == subscribed[places[k]].snssai
    ensures forall i | 0 <= i < |subscribed| :: i in places <==> PlmnHas(c, subscribed[i].snssai)
  {
    hide InPlmn;
    if subscribed == [] {
      places := [];
    } else {
      var n := |subscribed| - 1;
      var before := ConfiguredIsSubsequence(c, subscribed[..n]);
      if PlmnHas(c, subscribed[n].snssai) {
        places := before + [n];
        assert forall i | 0 <= i < n :: i in places <==> i in before;
        assert places[|before|] == n;
      } else {
        places := before;
        assert n !in before;
      }
    }
  }

  lemma SelectGrantsWell(c: Context)
    ensures if Judged(c, c.info.requested, Granted) != []
            then forall a | a in Select(c).allowed :: WellGranted(c, a)
            else forall a | a in Select(c).allowed :: a.mappedHome == None &&
                   a.nsi == if a.snssai in c.config.nsi then c.config.nsi[a.snssai] else []
  {
    var granted := Judged(c, c.info.requested, Granted);
    if granted != [] {
      assert Select(c).allowed == Grants(c, granted);
      hide Judged, Select, WellGranted, Judge, Grant;
      forall a | a in Grants(c, granted) ensures WellGranted(c, a) {
        var i :| 0 <= i < |granted| && Grants(c, granted)[i] == a;
        JudgedMember(c, c.info.requested, Granted, granted[i]);
        GrantIsWell(c, granted[i]);
        assert a == Grant(c, granted[i]);
      }
    } else {
      DefaultsAreWell(c, c.info.subscribed);
    }
  }

  lemma AllowedBySlice(c: Context)
    ensures Judged(c, c.info.requested, Granted) != [] <==>
            exists r :: r in c.info.requested && !Missing(c, r) && !Unsubscribed(c, r)
    ensures if exists r :: r in c.info.requested && !Missing(c, r) && !Unsubscribed(c, r)
            then forall s :: Allows(Select(c), s) <==> s in c.info.requested && !Missing(c, s) && !Unsubscribed(c, s)
            else forall s :: Allows(Select(c), s) <==>
                   exists sub :: sub in c.info.subscribed && sub.snssai == s && sub.isDefault && !Missing(c, s)
  {
    hide Select, Judged, Judge, Missing, Unsubscribed, Allows;
    var granted := Judged(c, c.info.requested, Granted);
    forall s ensures Judge(c, s) == Granted <==> !Missing(c, s) && !Unsubscribed(c, s) { JudgedBySlice(c, s); }
    forall s ensures s in granted <==> s in c.info.requested && Judge(c, s) == Granted {
      JudgedMember(c, c.info.requested, Granted, s);
    }
    if granted != [] { assert granted[0] in granted; }
    forall s ensures Available(c, s) <==> !Missing(c, s) { MissingIsUnavailable(c, s); }
    forall s
      ensures Allows(Select(c), s) <==>
              if exists r :: r in c.info.requested && Judge(c, r) == Granted
              then s in c.info.requested && Judge(c, s) == Granted
              else exists sub | sub in c.info.subscribed :: sub.snssai == s && sub.isDefault && !Missing(c, s)
    {
      AllowsExactly(c, s);
    }
  }

  lemma ConfiguredBySlice(c: Context)
    ensures forall s :: s in Select(c).configured <==>
              && (exists sub :: sub in c.info.subscribed && sub.snssai == s)
              && (c.tai.Some? ==> c.tai.value.plmn in c.config.inPlmn && s in c.config.inPlmn[c.tai.value.plmn])
              && (c.info.defaultConfigured || Select(c).rejectedInPlmn != [])
  {
    forall s
      ensures s in Configured(c, c.info.subscribed) <==>
              && (exists sub :: sub in c.info.subscribed && sub.snssai == s)
              && (c.tai.Some? ==> c.tai.value.plmn in c.config.inPlmn && s in c.config.inPlmn[c.tai.value.plmn])
    {
      ConfiguredMember(c, c.info.subscribed, s);
    }
    hide Configured, Judged, Grants, Defaults;
  }

  lemma RejectedBySlice(c: Context, s: Snssai)
    ensures s in Select(c).rejectedInTa <==> s in c.info.requested && Missing(c, s)
    ensures s in Select(c).rejectedInPlmn <==> s in c.info.requested && !Missing(c, s) && Unsubscribed(c, s)
  {
    JudgedBySlice(c, s);
    JudgedMember(c, c.info.requested, NotInTa, s);
    JudgedMember(c, c.info.requested, NotSubscribed, s);
    hide Judged, Judge, Missing, Unsubscribed, Grants, Defaults, Configured;
  }

  lemma SelectIsBySlice(c: Context)
    ensures SelectsBySlice(c, Select(c))
  {
    hide Select, Judged, WellGranted, Missing, Unsubscribed, Allows;
    forall s
      ensures s in Select(c).rejectedInTa <==> s in c.info.requested && Missing(c, s)
      ensures s in Select(c).rejectedInPlmn <==> s in c.info.requested && !Missing(c, s) && Unsubscribed(c, s)
    {
      RejectedBySlice(c, s);
    }
    SelectGrantsWell(c);
    AllowedBySlice(c);
    ConfiguredBySlice(c);
  }

  /** A registration is forbidden to all but the AMF and the NSSF; an unknown home network or area has everything
      requested rejected for that reason, the home network first; a roamer may ask for mappings instead; and
      every other answer is decided slice by slice. */
  lemma RegistrationAnswersExactly(c: Context, nf: NfType)
    ensures var answer := SelectForRegistration(c, nf);
            var strange := c.home.Some? && c.home.value !in c.config.plmns;
            var lost := c.tai.Some? && c.tai.value !in c.config.tais;
            && (answer == Forbidden <==> nf !in {AMF, NSSF})
            && (answer != Forbidden && strange ==>
                  answer.Selected? && answer.selection.rejectedInPlmn == c.info.requested &&
                  answer.selection.rejectedInTa == [] && answer.selection.allowed == [] &&
                  answer.selection.configured == [])
            && (answer != Forbidden && !strange && lost ==>
                  answer.Selected? && answer.selection.rejectedInTa == c.info.requested &&
                  answer.selection.rejectedInPlmn == [] && answer.selection.allowed == [] &&
                  answer.selection.configured == [])
            && (answer == MappingRequest <==>
                  answer != Forbidden && !strange && !lost && c.home.Some? && c.info.requestMapping)
            && (answer != Forbidden && !strange && !lost && answer != MappingRequest ==>
                  answer.Selected? && SelectsBySlice(c, answer.selection))
  {
    SelectIsBySlice(c);
    hide Select, SelectsBySlice;
  }

  // ---------- the service ----------

  method CheckSnssaiInPlmn(c: Config, s: Snssai, plmn: Plmn) returns (found: bool)
    ensures found == InPlmn(c, s, plmn)
  {
    if plmn !in c.inPlmn { return false; }
    var list := c.inPlmn[plmn];
    for i := 0 to |list|
      invariant s !in list[..i]
    {
      if list[i] == s { return true; }
    }
    assert list[..|list|] == list;
    found := false;
  }

  method CheckSnssaiInTa(c: Config, s: Snssai, tai: Tai) returns (found: bool)
    ensures found == InTa(c, s, tai)
  {
    if tai !in c.inTa {
      found := CheckSnssaiInPlmn(c, s, tai.plmn);
      return;
    }
    var list := c.inTa[tai];
    for i := 0 to |list|
      invariant s !in list[..i]
    {
      if list[i] == s { return true; }
    }
    assert list[..|list|] == list;
    found := false;
  }

  method CheckAvailable(c: Context, s: Snssai) returns (available: bool)
    ensures available == Available(c, s)
  {
    available := true;
    if c.tai.Some? { available := CheckSnssaiInTa(c.config, s, c.tai.value); }
  }

  method FindMapping(c: Context, s: Snssai, home: Snssai) returns (found: bool)
    ensures found == Mapped(c, s, home)
  {
    var list := c.info.mappings;
    for i := 0 to |list|
      invariant Mapping(s, home) !in list[..i]
    {
      if list[i].serving == s {
        if home == list[i].home { return true; }
      }
    }
    assert list[..|list|] == list;
    found := false;
  }

  /** The search of the subscription: it stops at the first hit for a slice that needs no mapping, and
      goes on to the last for one that does. */
  method FindSubscription(c: Context, s: Snssai) returns (isSubscribed: bool, mappedHome: Option<Snssai>)
    ensures isSubscribed == IsSubscribed(c, s)
    ensures mappedHome == MappedHome(c, s, c.info.subscribed)
  {
    isSubscribed, mappedHome := false, None;
    var list := c.info.subscribed;
    for i := 0 to |list|
      invariant isSubscribed <==> exists j | 0 <= j < i :: SubscribedAs(c, s, list[j].snssai)
      invariant mappedHome == MappedHome(c, s, list[..i])
      invariant NeedsMapping(c, s) || !isSubscribed
    {
      var sub := list[i];
      assert list[..i + 1][..i] == list[..i];
      if c.home.Some? && !Standard(s) {
        var found := FindMapping(c, s, sub.snssai);
        if found {
          isSubscribed := true;
          mappedHome := Some(sub.snssai);
          assert SubscribedAs(c, s, list[i].snssai);
        }
      } else {
        if sub.snssai == s {
          isSubscribed := true;
          assert sub in c.info.subscribed && SubscribedAs(c, s, sub.snssai);
          break;
        }
      }
    }
    assert list[..|list|] == list;
    assert isSubscribed ==> IsSubscribed(c, s) by {
      if j :| 0 <= j < |list| && SubscribedAs(c, s, list[j].snssai) { assert list[j] in c.info.subscribed; }
    }
  }

  method PartitionRequested(c: Context)
    returns (granted: seq<Allowed>, rejectedInPlmn: seq<Snssai>, rejectedInTa: seq<Snssai>)
    ensures granted == Grants(c, Judged(c, c.info.requested, Granted))
    ensures rejectedInPlmn == Judged(c, c.info.requested, NotSubscribed)
    ensures rejectedInTa == Judged(c, c.info.requested, NotInTa)
  {
    hide Available, IsSubscribed, MappedHome;
    granted, rejectedInPlmn, rejectedInTa := [], [], [];
    var list := c.info.requested;
    for i := 0 to |list|
      invariant granted == Grants(c, Judged(c, list[..i], Granted))
      invariant rejectedInPlmn == Judged(c, list[..i], NotSubscribed)
      invariant rejectedInTa == Judged(c, list[..i], NotInTa)
    {
      var requested := list[i];
      assert list[..i + 1][..i] == list[..i];
      var available := CheckAvailable(c, requested);
      if !available {
        rejectedInTa := rejectedInTa + [requested];
        continue;
      }
      var isSubscribed, mappedHome := FindSubscription(c, requested);
      if isSubscribed {
        granted := granted + [Allowed(requested, Nsi(c.config, requested), mappedHome)];
        assert granted[|granted| - 1] == Grant(c, requested);
      } else {
        rejectedInPlmn := rejectedInPlmn + [requested];
      }
    }
    assert list[..|list|] == list;
  }

  method DefaultSlices(c: Context) returns (allowed: seq<Allowed>)
    ensures allowed == Defaults(c, c.info.subscribed)
  {
    allowed := [];
    var list := c.info.subscribed;
    for i := 0 to |list|
      invariant allowed == Defaults(c, list[..i])
    {
      assert list[..i + 1][..i] == list[..i];
      if list[i].isDefault {
        var available := CheckAvailable(c, list[i].snssai);
        if !available { continue; }
        allowed := allowed + [Allowed(list[i].snssai, Nsi(c.config, list[i].snssai), None)];
      }
    }
    assert list[..|list|] == list;
  }

  method GetConfiguredNssai(c: Context) returns (configured: seq<Snssai>)
    ensures configured == Configured(c, c.info.subscribed)
  {
    configured := [];
    var list := c.info.subscribed;
    for i := 0 to |list|
      invariant configured == Configured(c, list[..i])
    {
      assert list[..i + 1][..i] == list[..i];
      if c.tai.Some? {
        var supported := CheckSnssaiInPlmn(c.config, list[i].snssai, c.tai.value.plmn);
        if supported { configured := configured + [list[i].snssai]; }
      } else {
        configured := configured + [list[i].snssai];
      }
    }
    assert list[..|list|] == list;
  }

  method NsSelectionForRegistration(c: Context, nf: NfType) returns (answer: Answer)
    ensures answer == SelectForRegistration(c, nf)
  {
    if nf != AMF && nf != NSSF { return Forbidden; }
    if c.home.Some? && c.home.value !in c.config.plmns {
      return Selected(Selection([], c.info.requested, [], []));
    }
    if c.tai.Some? && c.tai.value !in c.config.tais {
      return Selected(Selection([], [], c.info.requested, []));
    }
    if c.info.requestMapping && c.home.Some? { return MappingRequest; }
    var granted, rejectedInPlmn, rejectedInTa := PartitionRequested(c);
    if granted == [] { granted := DefaultSlices(c); }
    var configured := [];
    if c.info.defaultConfigured || rejectedInPlmn != [] { configured := GetConfiguredNssai(c); }
    answer := Selected(Selection(granted, rejectedInPlmn, rejectedInTa, configured));
  }
}
