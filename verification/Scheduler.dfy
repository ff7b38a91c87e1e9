/** A zone's scheduler: the live checks, and how a committed preparation changes them. */
module Schedulers {
  import opened Protocol
  import opened ChecksPreparations
  import opened Gauges

  /** A check that was built. Its definition never changes; being cancelled is recorded by the scheduler. */
  class Check {
    const def: CheckIn

    constructor (def: CheckIn)
      ensures this.def == def
    {
      this.def := def;
    }
  }

  // ---- what reconciling means for the definitions being run ----

  predicate Initiates(e: ActionableCheck) { e.action == TypeStart || e.action == TypeRestart }

  predicate Builds(e: ActionableCheck) { Initiates(e) && Parses(e.checkIn) }

  predicate BuildsAt(p: Prep, id: string) { id in p.actions && Builds(p.actions[id]) }

  predicate InitiatesAt(p: Prep, id: string) { id in p.actions && Initiates(p.actions[id]) }

  /** A preparation as it can arise: every entry under its own id, except that undeclared ones may have none. */
  ghost predicate WellFormed(p: Prep) {
    forall k <- p.actions ::
      p.actions[k].checkIn.id == k || (p.actions[k].action == TypeUnknown && p.actions[k].checkIn.id == "")
  }

  lemma NewIsWellFormed(zoneId: string, version: int, manifest: seq<ManifestEntry>)
    requires AllSupported(manifest)
    ensures WellFormed(NewPreparation(zoneId, version, manifest).value)
  {
    forall k | k in DeclareAll(manifest) ensures DeclareAll(manifest)[k].checkIn.id == k {
      DeclareAllAt(manifest, k);
    }
  }

  /** Definitions keep it so, declared or not, valid or not. */
  lemma {:induction false} AddKeepsWellFormed(p: Prep, block: seq<CheckIn>)
    requires WellFormed(p)
    ensures WellFormed(AddDefinitions(p, block))
  {
    if |block| > 0 {
      AddKeepsWellFormed(p, block[..|block| - 1]);
    }
  }

  /** An entry that stops the whole poller: details are asked for without looking whether there are any. */
  predicate CrashesOn(e: ActionableCheck) { Initiates(e) && e.checkIn.details.Absent? }

  predicate Crashes(p: Prep) {
    exists k <- p.actions :: CrashesOn(p.actions[k])
  }

  /** An id to be started or restarted whose last definition lacks details, or that has no definition. */
  predicate LacksDetails(manifest: seq<ManifestEntry>, defs: seq<CheckIn>, id: string) {
    && Declares(manifest, id) && LastAction(manifest, id) in {Start, Restart}
    && (id in Ids(defs) ==> LastDefinition(defs, id).details.Absent?)
  }

  /** Which traffic makes a preparation that crashes the poller when it is reconciled. */
  lemma ReceivedCrashesIff(zoneId: string, version: int, manifest: seq<ManifestEntry>, blocks: seq<seq<CheckIn>>)
    requires AllSupported(manifest)
    ensures Crashes(Received(NewPreparation(zoneId, version, manifest).value, blocks))
       <==> exists i | 0 <= i < |manifest| :: LacksDetails(manifest, Flatten(blocks), manifest[i].id)
  {
    var acts, defs := DeclareAll(manifest), Flatten(blocks);
    ReceivedIsFlat(NewPreparation(zoneId, version, manifest).value, blocks);
    forall k: string
      ensures k in DefineAll(acts, defs) && CrashesOn(DefineAll(acts, defs)[k]) <==> LacksDetails(manifest, defs, k)
    {
      CrashesAt(manifest, defs, k);
    }
    forall i | 0 <= i < |manifest| && LacksDetails(manifest, defs, manifest[i].id)
      ensures Crashes(Received(NewPreparation(zoneId, version, manifest).value, blocks))
    {
      assert CrashesOn(DefineAll(acts, defs)[manifest[i].id]);
    }
  }

  lemma CrashesAt(manifest: seq<ManifestEntry>, defs: seq<CheckIn>, k: string)
    ensures var actions := DefineAll(DeclareAll(manifest), defs);
            k in actions && CrashesOn(actions[k]) <==> LacksDetails(manifest, defs, k)
  {
    DeclareAllAt(manifest, k);
    DefineAllAt(DeclareAll(manifest), defs, k);
    DeclaredWithoutDetails(manifest, k);
  }

  lemma {:induction false} DeclaredWithoutDetails(manifest: seq<ManifestEntry>, k: string)
    ensures k in DeclareAll(manifest) ==> DeclareAll(manifest)[k].checkIn.details == Absent
  {
    if |manifest| > 0 {
      DeclaredWithoutDetails(manifest[..|manifest| - 1], k);
    }
  }

  /** Ids that entries carry: only these are kept from removal. */
  function Mentioned(p: Prep): set<string> { MentionedBy(p, p.actions.Keys) }

  function MentionedBy(p: Prep, keys: set<string>): set<string> {
    set k | k in keys && k in p.actions :: p.actions[k].checkIn.id
  }

  lemma NoneMentioned(p: Prep)
    ensures MentionedBy(p, {}) == {}
  {
  }

  lemma MentionedByOneMore(p: Prep, keys: set<string>, key: string)
    requires key in p.actions
    ensures MentionedBy(p, keys + {key}) == MentionedBy(p, keys) + {p.actions[key].checkIn.id}
  {
  }

  /** For a preparation that validates these are its ids. */
  lemma ValidatedMentions(p: Prep, version: int)
    requires WellFormed(p) && Validates(p, version)
    ensures Mentioned(p) == p.actions.Keys
  {
    forall k | k in p.actions ensures k in Mentioned(p) {
      assert p.actions[k].checkIn.id == k;
    }
  }

  /** The definitions run afterwards: new where one could be built, old where a check continues
      or its replacement could not be built, and nothing that the preparation does not mention. */
  function ReconcileDefs(defs: map<string, CheckIn>, p: Prep): map<string, CheckIn> {
    map k | k in p.actions.Keys + defs.Keys && (BuildsAt(p, k) || (k in defs && k in Mentioned(p))) ::
      if BuildsAt(p, k) then p.actions[k].checkIn else defs[k]
  }

  /** Live checks that a preparation cancels: those it replaces and those it leaves out. */
  predicate Stops(p: Prep, id: string) {
    id !in Mentioned(p) || InitiatesAt(p, id)
  }

  /** What the gauge is raised for. */
  function NewStarts(ids: set<string>, p: Prep, kind: Kind): set<string> {
    set k | k in p.actions && k !in ids && p.actions[k].action == TypeStart && IsKind(kind, p.actions[k].checkIn.checkType)
  }

  function OfKind(defs: map<string, CheckIn>, kind: Kind): set<string> {
    set k | k in defs && IsKind(kind, defs[k].checkType)
  }

  /** The scheduler's own validation: what is to be restarted or continued must be there. */
  predicate Accepts(ids: set<string>, p: Prep) {
    forall k <- p.actions :: p.actions[k].action in {TypeRestart, TypeContinue} ==> p.actions[k].checkIn.id in ids
  }

  // ---- a scheduler's books: live checks, checks ever scheduled, cancellations, gauge ----

  datatype Books = Books(checks: map<string, Check>, scheduled: set<Check>, cancelled: multiset<Check>, gauge: Gauge)

  const EmptyBooks := Books(map[], {}, multiset{}, map[])

  predicate Live(b: Books, c: Check) {
    c.def.id in b.checks && b.checks[c.def.id] == c
  }

  function Defs(b: Books): map<string, CheckIn> {
    map k | k in b.checks :: b.checks[k].def
  }

  /** Live checks sit under their own ids and were scheduled; only scheduled checks are cancelled. */
  ghost predicate InOrder(b: Books) {
    && (forall k <- b.checks :: b.checks[k].def.id == k && b.checks[k] in b.scheduled)
    && (forall c <- b.cancelled :: c in b.scheduled)
  }

  ghost predicate Filed(b: Books) {
    forall k <- b.checks :: b.checks[k].def.id == k
  }

  /** The live checks are exactly the scheduled ones not cancelled; the others were cancelled once. */
  ghost predicate Balanced(b: Books) {
    forall c <- b.scheduled :: b.cancelled[c] == if Live(b, c) then 0 else 1
  }

  /** What reconciling `p` does to the books: continued checks stay the same objects, started and restarted ones
      are new, the stopped ones are cancelled once more, the gauge moves by starts and removals, for every check
      type. It comes to an end at all only if no entry crashes. */
  ghost predicate Reconciled(b: Books, a: Books, p: Prep) {
    && !Crashes(p)
    && InOrder(a)
    && ReconciledChecks(b, a, p)
    && ReconciledScheduled(b, a, p)
    && ReconciledCancelled(b, a, p)
    && ReconciledGauge(b, a, p)
  }

  ghost predicate ReconciledChecks(b: Books, a: Books, p: Prep) {
    && (forall k :: k in a.checks <==> BuildsAt(p, k) || (k in b.checks && k in Mentioned(p)))
    && (forall k <- a.checks ::
          if BuildsAt(p, k) then a.checks[k] !in b.scheduled && a.checks[k].def == p.actions[k].checkIn
          else k in b.checks && a.checks[k] == b.checks[k])
  }

  ghost predicate ReconciledScheduled(b: Books, a: Books, p: Prep) {
    && b.scheduled <= a.scheduled
    && (forall c <- a.scheduled - b.scheduled :: Live(a, c) && BuildsAt(p, c.def.id))
  }

  ghost predicate ReconciledCancelled(b: Books, a: Books, p: Prep) {
    forall c <- a.scheduled ::
      a.cancelled[c] == b.cancelled[c] + if Live(b, c) && Stops(p, c.def.id) then 1 else 0
  }

  ghost predicate ReconciledGauge(b: Books, a: Books, p: Prep) {
    forall kind ::
      Level(a.gauge, kind) == Level(b.gauge, kind) + |NewStarts(b.checks.Keys, p, kind)|
                              - |OfKind(Defs(b) - Mentioned(p), kind)|
  }

  /** In terms of definitions alone, reconciling is a function of the definitions and the preparation:
      neither the order of the entries nor the identity of the checks matters. */
  lemma ReconciledDefs(b: Books, a: Books, p: Prep)
    requires ReconciledChecks(b, a, p)
    ensures Defs(a) == ReconcileDefs(Defs(b), p)
  {
    forall k ensures k in Defs(a) <==> k in ReconcileDefs(Defs(b), p) {
      assert k in Defs(a) <==> k in a.checks;
      assert k in Defs(b) <==> k in b.checks;
    }
  }

  /** What one entry of a preparation does to the books, unless it crashes. */
  ghost predicate Acted(b: Books, a: Books, ac: ActionableCheck) {
    var id := ac.checkIn.id;
    && a.cancelled == b.cancelled + (if Initiates(ac) && id in b.checks then multiset{b.checks[id]} else multiset{})
    && a.gauge == (if ac.action == TypeStart && id !in b.checks then Add(b.gauge, ac.checkIn.checkType, 1) else b.gauge)
    && (!Builds(ac) ==> a.checks == b.checks && a.scheduled == b.scheduled)
    && (Builds(ac) ==>
          && id in a.checks && a.checks == b.checks[id := a.checks[id]]
          && a.checks[id] !in b.scheduled && a.checks[id].def == ac.checkIn
          && a.scheduled == b.scheduled + {a.checks[id]})
  }

  /** Midway through a reconcile, with the entries of `did` taken. */
  ghost predicate Partway(b: Books, a: Books, p: Prep, did: set<string>) {
    && PartwayChecks(b, a, p, did)
    && PartwayScheduled(b, a, p, did)
    && PartwayCancelled(b, a, p, did)
    && PartwayGauge(b, a, p, did)
  }

  ghost predicate PartwayChecks(b: Books, a: Books, p: Prep, did: set<string>) {
    && (forall k :: k in a.checks <==> k in b.checks || (k in did && BuildsAt(p, k)))
    && (forall k <- a.checks ::
          if k in did && BuildsAt(p, k)
          then a.checks[k] !in b.scheduled && a.checks[k].def == p.actions[k].checkIn && a.checks[k] in a.scheduled
          else k in b.checks && a.checks[k] == b.checks[k])
  }

  ghost predicate PartwayScheduled(b: Books, a: Books, p: Prep, did: set<string>) {
    && b.scheduled <= a.scheduled
    && (forall c <- a.scheduled - b.scheduled :: Live(a, c) && c.def.id in did && BuildsAt(p, c.def.id))
  }

  ghost predicate PartwayCancelled(b: Books, a: Books, p: Prep, did: set<string>) {
    && (forall c <- a.cancelled :: c in a.scheduled)
    && (forall c <- a.scheduled ::
          a.cancelled[c] == b.cancelled[c] + if Live(b, c) && c.def.id in did && InitiatesAt(p, c.def.id) then 1 else 0)
  }

  ghost predicate PartwayGauge(b: Books, a: Books, p: Prep, did: set<string>) {
    forall kind :: Level(a.gauge, kind) == Level(b.gauge, kind) + |NewStarts(b.checks.Keys, p, kind) * did|
  }

  lemma PartwayStart(b: Books, p: Prep)
    requires InOrder(b)
    ensures Partway(b, b, p, {})
  {
    assert forall kind :: NewStarts(b.checks.Keys, p, kind) * {} == {};
  }

  lemma PartwayFiled(b: Books, m: Books, p: Prep)
    requires InOrder(b) && WellFormed(p) && Partway(b, m, p, p.actions.Keys)
    ensures Filed(m) && b.checks.Keys <= m.checks.Keys
  {
  }

  lemma PartwayStep(b: Books, m: Books, a: Books, p: Prep, did: set<string>, id: string)
    requires InOrder(b) && WellFormed(p) && id in p.actions && id !in did
    requires Partway(b, m, p, did) && Acted(m, a, p.actions[id])
    ensures Partway(b, a, p, did + {id})
  {
    hide PartwayChecks, PartwayScheduled, PartwayCancelled, PartwayGauge, Acted, InOrder, WellFormed;
    PartwayStepChecks(b, m, a, p, did, id);
    PartwayStepCancelled(b, m, a, p, did, id);
    PartwayStepGauge(b, m, a, p, did, id);
  }

  lemma PartwayStepChecks(b: Books, m: Books, a: Books, p: Prep, did: set<string>, id: string)
    requires WellFormed(p) && id in p.actions && id !in did
    requires PartwayChecks(b, m, p, did) && PartwayScheduled(b, m, p, did)
    requires Acted(m, a, p.actions[id])
    ensures PartwayChecks(b, a, p, did + {id}) && PartwayScheduled(b, a, p, did + {id})
  {
  }

  lemma PartwayStepCancelled(b: Books, m: Books, a: Books, p: Prep, did: set<string>, id: string)
    requires InOrder(b) && WellFormed(p) && id in p.actions && id !in did
    requires PartwayChecks(b, m, p, did) && PartwayScheduled(b, m, p, did) && PartwayCancelled(b, m, p, did)
    requires Acted(m, a, p.actions[id])
    ensures PartwayCancelled(b, a, p, did + {id})
  {
    assert id in m.checks <==> id in b.checks;
    forall c | c in a.scheduled
      ensures a.cancelled[c] == b.cancelled[c]
                                + if Live(b, c) && c.def.id in did + {id} && InitiatesAt(p, c.def.id) then 1 else 0
    {
      if c !in m.scheduled {
        assert m.cancelled[c] == 0 && b.cancelled[c] == 0;
      }
    }
  }

  lemma PartwayStepGauge(b: Books, m: Books, a: Books, p: Prep, did: set<string>, id: string)
    requires WellFormed(p) && id in p.actions && id !in did
    requires PartwayChecks(b, m, p, did) && PartwayGauge(b, m, p, did)
    requires Acted(m, a, p.actions[id])
    ensures PartwayGauge(b, a, p, did + {id})
  {
    assert id in m.checks <==> id in b.checks;
    hide PartwayChecks, Level, NewStarts;
    forall kind
      ensures Level(a.gauge, kind) == Level(b.gauge, kind) + |NewStarts(b.checks.Keys, p, kind) * (did + {id})|
    {
      LevelAdd(m.gauge, p.actions[id].checkIn.checkType, 1, kind);
      StartsTaken(b.checks.Keys, p, kind, did, id);
    }
  }

  lemma StartsTaken(ids: set<string>, p: Prep, kind: Kind, did: set<string>, id: string)
    requires id in p.actions && id !in did
    ensures |NewStarts(ids, p, kind) * (did + {id})|
         == |NewStarts(ids, p, kind) * did|
            + if p.actions[id].action == TypeStart && id !in ids && IsKind(kind, p.actions[id].checkIn.checkType) then 1 else 0
  {
    var starts := NewStarts(ids, p, kind);
    assert starts * (did + {id}) == starts * did + (if id in starts then {id} else {});
  }

  // ---- taking checks out ----

  /** What taking out the checks of the given ids does to the books, the gauge apart. */
  ghost predicate TakenOut(b: Books, a: Books, absent: set<string>) {
    && a.checks == b.checks - absent && a.scheduled == b.scheduled
    && (forall c <- a.cancelled :: c in b.cancelled || c in b.checks.Values)
    && (forall c <- b.scheduled :: a.cancelled[c] == b.cancelled[c] + if Live(b, c) && c.def.id in absent then 1 else 0)
  }

  ghost predicate Uncounted(b: Books, a: Books, absent: set<string>) {
    forall kind :: Level(a.gauge, kind) == Level(b.gauge, kind) - |OfKind(Defs(b), kind) * absent|
  }

  ghost predicate TakesOut(b: Books, a: Books, k: string) {
    && k in b.checks
    && a.checks == b.checks - {k} && a.scheduled == b.scheduled
    && a.cancelled == b.cancelled + multiset{b.checks[k]}
  }

  lemma TakenOutStep(b: Books, m: Books, a: Books, absent: set<string>, k: string)
    requires Filed(b) && TakenOut(b, m, absent) && k !in absent && TakesOut(m, a, k)
    ensures TakenOut(b, a, absent + {k})
  {
    assert m.checks[k] == b.checks[k];
  }

  lemma UncountedStep(b: Books, m: Books, a: Books, absent: set<string>, k: string)
    requires m.checks == b.checks - absent && k in m.checks && Uncounted(b, m, absent)
    requires a.gauge == Add(m.gauge, m.checks[k].def.checkType, -1)
    ensures Uncounted(b, a, absent + {k})
  {
    assert k in b.checks && m.checks[k] == b.checks[k] && k !in absent;
    hide Level;
    forall kind ensures Level(a.gauge, kind) == Level(b.gauge, kind) - |OfKind(Defs(b), kind) * (absent + {k})| {
      LevelAdd(m.gauge, m.checks[k].def.checkType, -1, kind);
      OneMoreOfKind(Defs(b), kind, absent, k);
    }
  }

  lemma OneMoreOfKind(defs: map<string, CheckIn>, kind: Kind, absent: set<string>, k: string)
    requires k in defs && k !in absent
    ensures |OfKind(defs, kind) * (absent + {k})|
         == |OfKind(defs, kind) * absent| + if IsKind(kind, defs[k].checkType) then 1 else 0
  {
    var live := OfKind(defs, kind);
    assert live * (absent + {k}) == live * absent + (if k in live then {k} else {});
  }

  lemma NothingTakenOut(b: Books)
    ensures TakenOut(b, b, {}) && Uncounted(b, b, {})
  {
    assert forall kind :: OfKind(Defs(b), kind) * {} == {};
  }

  lemma PartwayThenTakenOut(b: Books, m: Books, a: Books, p: Prep)
    requires InOrder(b) && WellFormed(p) && !Crashes(p)
    requires Partway(b, m, p, p.actions.Keys)
    requires TakenOut(m, a, b.checks.Keys - Mentioned(p)) && Uncounted(m, a, b.checks.Keys - Mentioned(p))
    ensures Reconciled(b, a, p)
  {
    PartwayFiled(b, m, p);
    hide PartwayChecks, PartwayScheduled, PartwayCancelled, PartwayGauge, ReconciledChecks, ReconciledScheduled,
         ReconciledCancelled, ReconciledGauge, Uncounted, WellFormed;
    ThenChecks(b, m, a, p);
    ThenScheduled(b, m, a, p);
    ThenCancelled(b, m, a, p);
    ThenInOrder(b, m, a, p);
    ThenGauge(b, m, a, p);
  }

  lemma BuiltIsMentioned(p: Prep, k: string)
    requires WellFormed(p) && BuildsAt(p, k)
    ensures k in Mentioned(p)
  {
    assert p.actions[k].checkIn.id == k;
  }

  lemma ThenChecks(b: Books, m: Books, a: Books, p: Prep)
    requires WellFormed(p) && PartwayChecks(b, m, p, p.actions.Keys)
    requires a.checks == m.checks - (b.checks.Keys - Mentioned(p))
    ensures ReconciledChecks(b, a, p)
  {
    forall k | BuildsAt(p, k) ensures k in Mentioned(p) {
      BuiltIsMentioned(p, k);
    }
    hide Mentioned, WellFormed, Builds;
  }

  lemma ThenScheduled(b: Books, m: Books, a: Books, p: Prep)
    requires WellFormed(p) && PartwayScheduled(b, m, p, p.actions.Keys)
    requires a.checks == m.checks - (b.checks.Keys - Mentioned(p)) && a.scheduled == m.scheduled
    ensures ReconciledScheduled(b, a, p)
  {
    forall c | c in a.scheduled - b.scheduled ensures Live(a, c) {
      BuiltIsMentioned(p, c.def.id);
    }
  }

  lemma ThenCancelled(b: Books, m: Books, a: Books, p: Prep)
    requires Filed(b) && Filed(m) && WellFormed(p)
    requires PartwayChecks(b, m, p, p.actions.Keys) && PartwayCancelled(b, m, p, p.actions.Keys)
    requires TakenOut(m, a, b.checks.Keys - Mentioned(p))
    ensures ReconciledCancelled(b, a, p)
  {
    forall c | c in a.scheduled
      ensures a.cancelled[c] == b.cancelled[c] + if Live(b, c) && Stops(p, c.def.id) then 1 else 0
    {
      InitiatedIsMentioned(p, c.def.id);
      assert c.def.id in Mentioned(p) || (Live(m, c) <==> Live(b, c));
    }
  }

  lemma InitiatedIsMentioned(p: Prep, k: string)
    requires WellFormed(p)
    ensures InitiatesAt(p, k) ==> k in Mentioned(p)
  {
    if InitiatesAt(p, k) {
      assert p.actions[k].checkIn.id == k;
    }
  }

  lemma ThenInOrder(b: Books, m: Books, a: Books, p: Prep)
    requires InOrder(b) && WellFormed(p) && Filed(m)
    requires PartwayChecks(b, m, p, p.actions.Keys) && PartwayScheduled(b, m, p, p.actions.Keys)
    requires PartwayCancelled(b, m, p, p.actions.Keys)
    requires TakenOut(m, a, b.checks.Keys - Mentioned(p))
    ensures InOrder(a)
  {
    hide Mentioned;
  }

  lemma ThenGauge(b: Books, m: Books, a: Books, p: Prep)
    requires WellFormed(p)
    requires PartwayChecks(b, m, p, p.actions.Keys) && PartwayGauge(b, m, p, p.actions.Keys)
    requires Uncounted(m, a, b.checks.Keys - Mentioned(p))
    ensures ReconciledGauge(b, a, p)
  {
    hide PartwayChecks, WellFormed, Mentioned, Level, NewStarts, OfKind, Defs;
    forall kind
      ensures Level(a.gauge, kind) == Level(b.gauge, kind) + |NewStarts(b.checks.Keys, p, kind)|
                                      - |OfKind(Defs(b) - Mentioned(p), kind)|
    {
      StartsAreEntries(b.checks.Keys, p, kind);
      ThenDropped(b, m, p, kind);
    }
  }

  lemma StartsAreEntries(ids: set<string>, p: Prep, kind: Kind)
    ensures NewStarts(ids, p, kind) * p.actions.Keys == NewStarts(ids, p, kind)
  {
  }

  lemma ThenDropped(b: Books, m: Books, p: Prep, kind: Kind)
    requires WellFormed(p) && PartwayChecks(b, m, p, p.actions.Keys)
    ensures OfKind(Defs(m), kind) * (b.checks.Keys - Mentioned(p)) == OfKind(Defs(b) - Mentioned(p), kind)
  {
    forall k | k in b.checks && k !in Mentioned(p) ensures k in m.checks && m.checks[k] == b.checks[k] {
      if BuildsAt(p, k) {
        BuiltIsMentioned(p, k);
      }
    }
  }

  /** What a reset does to the books. */
  ghost predicate WasReset(b: Books, a: Books) {
    && InOrder(a) && a.checks == map[] && a.scheduled == b.scheduled && a.gauge == b.gauge
    && forall c <- a.scheduled :: a.cancelled[c] == b.cancelled[c] + if Live(b, c) then 1 else 0
  }

  lemma OrderIsFiled(b: Books)
    requires InOrder(b)
    ensures Filed(b)
  {
  }

  lemma AllTakenOut(b: Books, a: Books, gone: set<string>)
    requires InOrder(b) && TakenOut(b, a, gone) && a.checks == map[] && a.gauge == b.gauge
    ensures WasReset(b, a)
  {
    forall k | k in b.checks ensures k in gone {
      assert k in gone || k in a.checks;
    }
  }

  // ---- the scheduler object ----

  datatype Initiation = Initiated | Refused | Crashed

  class EleScheduler {
    var checks: map<string, Check>
    var preparations: seq<ChecksPreparation>
    var gauge: Gauge
    /** Resets asked for and not carried out yet. */
    var resets: nat
    /** Every check passed to `Schedule`, and how often each was passed to `CancelCheck`. */
    ghost var scheduled: set<Check>
    ghost var cancelled: multiset<Check>

    ghost function View(): Books
      reads this
    {
      Books(checks, scheduled, cancelled, gauge)
    }

    ghost predicate Valid()
      reads this
    {
      InOrder(View())
    }

    constructor ()
      ensures Valid() && View() == EmptyBooks && preparations == [] && resets == 0
    {
      checks, preparations, gauge, resets, scheduled, cancelled := map[], [], map[], 0, {}, multiset{};
    }

    method ReconcileChecks(cp: ChecksPreparation)
      modifies this`preparations
      ensures preparations == old(preparations) + [cp]
    {
      preparations := preparations + [cp];
    }

    method RequestReset()
      modifies this`resets
      ensures resets == old(resets) + 1
    {
      resets := resets + 1;
    }

    method ValidateChecks(cp: ChecksPreparation) returns (ok: bool)
      ensures ok <==> Accepts(checks.Keys, cp.View())
    {
      var acs, keys := cp.GetActionableChecks();
      for i := 0 to |acs|
        invariant forall j | 0 <= j < i ::
                    acs[j].action in {TypeRestart, TypeContinue} ==> acs[j].checkIn.id in checks
      {
        if (acs[i].action == TypeRestart || acs[i].action == TypeContinue) && acs[i].checkIn.id !in checks {
          assert cp.actions[keys[i]] == acs[i];
          return false;
        }
      }
      ok := true;
    }

    method CancelCheck(c: Check)
      modifies this`cancelled
      ensures cancelled == old(cancelled) + multiset{c}
    {
      cancelled := cancelled + multiset{c};
    }

    /** A check of a known type asks for its details; of another type it is refused without looking at them. */
    method InitiateCheck(def: CheckIn) returns (o: Initiation)
      modifies this`checks, this`scheduled
      ensures o == if !KnownType(def) then Refused else if def.details.Absent? then Crashed
                   else if def.details.Malformed? then Refused else Initiated
      ensures o == Initiated <==>
                && def.details.Decodable?
                && (def.checkType == "remote.tcp" || def.checkType == "remote.http"
                    || def.checkType == "remote.ping" || def.checkType == "agent.plugin")
      ensures o == Initiated <==> Parses(def)
      ensures !Parses(def) ==> checks == old(checks) && scheduled == old(scheduled)
      ensures Parses(def) ==>
                && def.id in checks && checks == old(checks)[def.id := checks[def.id]]
                && fresh(checks[def.id]) && checks[def.id].def == def
                && scheduled == old(scheduled) + {checks[def.id]}
    {
      if !KnownType(def) {
        return Refused;
      }
      match def.details
      case Absent => return Crashed;
      case Malformed(_) => return Refused;
      case Decodable(_) =>
        var newCheck := new Check(def);
        checks := checks[def.id := newCheck];
        scheduled := scheduled + {newCheck};
        o := Initiated;
    }

    /** A refusal is logged together with the details, which there must be then. */
    method InitiateAndLog(def: CheckIn) returns (crashed: bool)
      modifies this`checks, this`scheduled
      ensures crashed <==> def.details.Absent?
      ensures !Parses(def) ==> checks == old(checks) && scheduled == old(scheduled)
      ensures Parses(def) ==>
                && def.id in checks && checks == old(checks)[def.id := checks[def.id]]
                && fresh(checks[def.id]) && checks[def.id].def == def
                && scheduled == old(scheduled) + {checks[def.id]}
    {
      var o := InitiateCheck(def);
      match o
      case Initiated => crashed := false;
      case Refused => crashed := def.details.Absent?;
      case Crashed => crashed := true;
    }

    method StartCheck(ac: ActionableCheck) returns (crashed: bool)
      requires ac.action == TypeStart
      modifies this`checks, this`scheduled, this`cancelled, this`gauge
      ensures crashed <==> CrashesOn(ac)
      ensures !crashed ==> Acted(old(View()), View(), ac)
      ensures fresh(scheduled - old(scheduled))
    {
      if ac.checkIn.id in checks {
        CancelCheck(checks[ac.checkIn.id]);
      } else {
        gauge := Add(gauge, ac.checkIn.checkType, 1);
      }
      crashed := InitiateAndLog(ac.checkIn);
    }

    method RestartCheck(ac: ActionableCheck) returns (crashed: bool)
      requires ac.action == TypeRestart
      modifies this`checks, this`scheduled, this`cancelled
      ensures crashed <==> CrashesOn(ac)
      ensures !crashed ==> Acted(old(View()), View(), ac)
      ensures fresh(scheduled - old(scheduled))
    {
      if ac.checkIn.id in checks {
        CancelCheck(checks[ac.checkIn.id]);
      }
      crashed := InitiateAndLog(ac.checkIn);
    }

    /** The part of a reconcile that concerns one entry of the preparation. */
    method Act(ac: ActionableCheck) returns (crashed: bool)
      modifies this`checks, this`scheduled, this`cancelled, this`gauge
      ensures crashed <==> CrashesOn(ac)
      ensures !crashed ==> Acted(old(View()), View(), ac)
      ensures fresh(scheduled - old(scheduled))
    {
      match ac.action
      case TypeStart => crashed := StartCheck(ac);
      case TypeRestart => crashed := RestartCheck(ac);
      case TypeContinue => crashed := false;
      case TypeUnknown => crashed := false;
    }

    method TakeOut(k: string)
      requires k in checks
      modifies this`checks, this`cancelled
      ensures TakesOut(old(View()), View(), k)
    {
      var check := checks[k];
      checks := checks - {k};
      CancelCheck(check);
    }

    method RemoveCheck(k: string)
      requires k in checks
      modifies this`checks, this`cancelled, this`gauge
      ensures TakesOut(old(View()), View(), k)
      ensures gauge == Add(old(gauge), old(checks[k]).def.checkType, -1)
    {
      var checkToRemove := checks[k];
      TakeOut(k);
      gauge := Add(gauge, checkToRemove.def.checkType, -1);
    }

    method RemoveAbsent(absent: set<string>)
      requires absent <= checks.Keys && Filed(View())
      modifies this`checks, this`cancelled, this`gauge
      ensures TakenOut(old(View()), View(), absent) && Uncounted(old(View()), View(), absent)
    {
      hide TakenOut, Uncounted, Filed;
      ghost var was, gone := View(), {};
      var remainder := absent;
      NothingTakenOut(was);
      while remainder != {}
        invariant remainder <= checks.Keys && remainder == absent - gone && gone <= absent
        invariant checks == was.checks - gone
        invariant TakenOut(was, View(), gone) && Uncounted(was, View(), gone)
        decreases remainder
      {
        var k :| k in remainder;
        ghost var before := View();
        RemoveCheck(k);
        TakenOutStep(was, before, View(), gone, k);
        UncountedStep(was, before, View(), gone, k);
        gone, remainder := gone + {k}, remainder - {k};
      }
      assert gone == absent;
    }

    /** Entries are taken in an arbitrary order; the contract does not mention it. */
    method ActOnAll(cp: ChecksPreparation) returns (crashed: bool, remainder: set<string>)
      requires Valid() && WellFormed(cp.View())
      modifies this`checks, this`scheduled, this`cancelled, this`gauge
      ensures crashed <==> Crashes(cp.View())
      ensures !crashed ==> Partway(old(View()), View(), cp.View(), cp.actions.Keys)
      ensures !crashed ==> remainder == old(checks.Keys) - Mentioned(cp.View())
      ensures fresh(scheduled - old(scheduled))
    {
      hide Partway, Acted, CrashesOn, MentionedBy;
      ghost var was, p := View(), cp.View();
      remainder := checks.Keys;
      var acs, keys := cp.GetActionableChecks();
      ghost var did: set<string> := {};
      assert MentionedBy(p, did) == {} by { NoneMentioned(p); }
      PartwayStart(was, p);
      for i := 0 to |acs|
        invariant did == (set j | 0 <= j < i :: keys[j]) && did <= p.actions.Keys
        invariant remainder == was.checks.Keys - MentionedBy(p, did)
        invariant forall k <- did :: !CrashesOn(p.actions[k])
        invariant Partway(was, View(), p, did)
        invariant fresh(scheduled - was.scheduled)
      {
        var ac := acs[i];
        remainder := remainder - {ac.checkIn.id};
        ghost var before := View();
        crashed := Act(ac);
        if crashed {
          assert CrashesOn(p.actions[keys[i]]);
          return;
        }
        PartwayStep(was, before, View(), p, did, keys[i]);
        MentionedByOneMore(p, did, keys[i]);
        did := did + {keys[i]};
      }
      assert did == p.actions.Keys;
      crashed := false;
    }

    /** A crash takes the whole poller with it, so nothing is said of the books after one. */
    method Reconcile(cp: ChecksPreparation) returns (crashed: bool)
      requires Valid() && WellFormed(cp.View())
      modifies this`checks, this`scheduled, this`cancelled, this`gauge
      ensures crashed <==> Crashes(cp.View())
      ensures !crashed ==> Reconciled(old(View()), View(), cp.View())
      ensures fresh(scheduled - old(scheduled))
    {
      hide Partway, TakenOut, Uncounted, Reconciled, Crashes, Mentioned;
      ghost var was, p := View(), cp.View();
      var remainder;
      crashed, remainder := ActOnAll(cp);
      if !crashed {
        ghost var mid := View();
        PartwayFiled(was, mid, p);
        RemoveAbsent(remainder);
        PartwayThenTakenOut(was, mid, View(), p);
      }
    }

    method Reset()
      requires Valid()
      modifies this`checks, this`cancelled
      ensures WasReset(old(View()), View())
    {
      ghost var was, gone: set<string> := View(), {};
      NothingTakenOut(was);
      OrderIsFiled(was);
      hide TakenOut, Filed, InOrder, WasReset, Uncounted;
      while checks.Keys != {}
        invariant checks == was.checks - gone && gauge == was.gauge
        invariant TakenOut(was, View(), gone)
        decreases checks.Keys
      {
        var k :| k in checks.Keys;
        ghost var before := View();
        TakeOut(k);
        TakenOutStep(was, before, View(), gone, k);
        gone := gone + {k};
      }
      AllTakenOut(was, View(), gone);
    }

    /** A turn of the reconciling loop that takes the preparation waiting longest. */
    method ReconcileNext() returns (crashed: bool)
      requires Valid() && preparations != [] && WellFormed(preparations[0].View())
      modifies this`preparations, this`checks, this`scheduled, this`cancelled, this`gauge
      ensures preparations == old(preparations)[1..]
      ensures crashed <==> Crashes(old(preparations[0].View()))
      ensures !crashed ==>
                && Valid()
                && Reconciled(old(View()), View(), old(preparations[0].View()))
                && Defs(View()) == ReconcileDefs(old(Defs(View())), old(preparations[0].View()))
    {
      hide ReconciledScheduled, ReconciledCancelled, ReconciledGauge, ReconcileDefs, Defs, Crashes;
      var cp := preparations[0];
      preparations := preparations[1..];
      crashed := Reconcile(cp);
      if !crashed {
        ReconciledDefs(old(View()), View(), old(cp.View()));
      }
    }

    /** A turn of the same loop that takes a reset. */
    method ResetNext()
      requires Valid() && resets > 0
      modifies this`resets, this`checks, this`cancelled
      ensures Valid() && resets == old(resets) - 1 && preparations == old(preparations)
      ensures WasReset(old(View()), View())
    {
      resets := resets - 1;
      Reset();
    }
  }
}
