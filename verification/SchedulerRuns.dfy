/** A scheduler over whole runs of reconciles and resets: which checks are alive, and what the gauge shows. */
module SchedulerRuns {
  import opened Protocol
  import opened ChecksPreparations
  import opened Gauges
  import opened Schedulers

  // ---- the balance of scheduled, live and cancelled checks ----

  /** A check cancelled for a replacement that cannot be built. */
  predicate Lost(p: Prep, id: string) {
    InitiatesAt(p, id) && !Parses(p.actions[id].checkIn)
  }

  /** After a reconcile that does not crash the books stay balanced exactly when no check to be replaced has a
      replacement that cannot be built: such a check is cancelled and yet kept. */
  lemma ReconcileBalance(b: Books, a: Books, p: Prep)
    requires InOrder(b) && Balanced(b) && WellFormed(p) && Reconciled(b, a, p)
    ensures Balanced(a) <==> forall k <- b.checks :: !Lost(p, k)
  {
    forall c | c in a.scheduled
      ensures a.cancelled[c] == (if Live(a, c) then 0 else 1) <==> !(Live(b, c) && Lost(p, c.def.id))
    {
      BalanceOf(b, a, p, c);
    }
    forall k | k in b.checks && Lost(p, k) ensures !Balanced(a) {
      var c := b.checks[k];
      assert Live(b, c) && c in a.scheduled;
    }
  }

  lemma BalanceOf(b: Books, a: Books, p: Prep, c: Check)
    requires InOrder(b) && Balanced(b) && WellFormed(p) && Reconciled(b, a, p) && c in a.scheduled
    ensures a.cancelled[c] == (if Live(a, c) then 0 else 1) <==> !(Live(b, c) && Lost(p, c.def.id))
  {
    var id := c.def.id;
    InitiatedIsMentioned(p, id);
    hide Mentioned, ReconciledGauge, WellFormed;
    if c !in b.scheduled {
      assert b.cancelled[c] == 0 && !Live(b, c);
    } else if Live(b, c) {
      assert Live(a, c) <==> id in Mentioned(p) && !BuildsAt(p, id);
    } else {
      assert !Live(a, c);
    }
  }

  // ---- the gauge against the entries, per check type and in all ----

  ghost function Drift(b: Books, kind: Kind): int { Level(b.gauge, kind) - |OfKind(Defs(b), kind)| }

  /** Counted when it was started, but it could not be built. */
  function Unbuildable(ids: set<string>, p: Prep, kind: Kind): set<string> {
    set k | k in NewStarts(ids, p, kind) && k in p.actions && !Parses(p.actions[k].checkIn)
  }

  /** Restarted although it was not there, and so not counted. */
  function LateRestarts(ids: set<string>, p: Prep, kind: Kind): set<string> {
    set k | k in p.actions && k !in ids && p.actions[k].action == TypeRestart && Parses(p.actions[k].checkIn)
            && IsKind(kind, p.actions[k].checkIn.checkType)
  }

  /** Live checks that give way to a check of another type. */
  function ReplacedAway(defs: map<string, CheckIn>, p: Prep, kind: Kind): set<string> {
    set k | k in defs && BuildsAt(p, k)
            && IsKind(kind, defs[k].checkType) && !IsKind(kind, p.actions[k].checkIn.checkType)
  }

  function ReplacedInto(defs: map<string, CheckIn>, p: Prep, kind: Kind): set<string> {
    set k | k in defs && BuildsAt(p, k)
            && !IsKind(kind, defs[k].checkType) && IsKind(kind, p.actions[k].checkIn.checkType)
  }

  /** How far a reconcile moves the gauge away from the entries. */
  function Shift(defs: map<string, CheckIn>, p: Prep, kind: Kind): int {
    |Unbuildable(defs.Keys, p, kind)| + |ReplacedAway(defs, p, kind)|
    - |LateRestarts(defs.Keys, p, kind)| - |ReplacedInto(defs, p, kind)|
  }

  lemma EntriesAfter(defs: map<string, CheckIn>, p: Prep, kind: Kind)
    requires WellFormed(p)
    ensures var ids := defs.Keys;
            var starts, failed := NewStarts(ids, p, kind), Unbuildable(ids, p, kind);
            var dropped, away := OfKind(defs - Mentioned(p), kind), ReplacedAway(defs, p, kind);
            && failed <= starts && dropped !! away && dropped + away <= OfKind(defs, kind)
            && OfKind(ReconcileDefs(defs, p), kind)
               == (OfKind(defs, kind) - dropped - away) + ReplacedInto(defs, p, kind) + (starts - failed) + LateRestarts(ids, p, kind)
  {
    forall k | BuildsAt(p, k) ensures k in Mentioned(p) {
      BuiltIsMentioned(p, k);
    }
    hide Mentioned, WellFormed, Parses, IsKind;
  }

  lemma PartsApart(defs: map<string, CheckIn>, p: Prep, kind: Kind)
    ensures OfKind(defs, kind) !! ReplacedInto(defs, p, kind) !! NewStarts(defs.Keys, p, kind) !! LateRestarts(defs.Keys, p, kind)
  {
  }

  lemma PartSizes(before: set<string>, dropped: set<string>, away: set<string>, into: set<string>,
                  starts: set<string>, failed: set<string>, late: set<string>)
    requires dropped !! away && dropped + away <= before && failed <= starts
    requires before !! into !! starts !! late
    ensures |(before - dropped - away) + into + (starts - failed) + late|
         == |before| - |dropped| - |away| + |into| + |starts| - |failed| + |late|
  {
    var kept, built := before - dropped - away, starts - failed;
    SplitSize(before, kept, dropped + away);
    SplitSize(dropped + away, dropped, away);
    SplitSize(starts, built, failed);
    SplitSize(kept + into, kept, into);
    SplitSize(kept + into + built, kept + into, built);
    SplitSize(kept + into + built + late, kept + into + built, late);
  }

  lemma SplitSize(whole: set<string>, a: set<string>, b: set<string>)
    requires whole == a + b && a !! b
    ensures |whole| == |a| + |b|
  {
  }

  /** For every reconcile that does not crash, and for every check type as for all of them together. */
  lemma ReconcileDrift(b: Books, a: Books, p: Prep, kind: Kind)
    requires WellFormed(p) && Reconciled(b, a, p)
    ensures Drift(a, kind) == Drift(b, kind) + Shift(Defs(b), p, kind)
  {
    assert ReconciledChecks(b, a, p) && ReconciledGauge(b, a, p);
    ReconciledDefs(b, a, p);
    var defs := Defs(b);
    assert defs.Keys == b.checks.Keys;
    GaugeMoved(b, a, p, kind);
    hide Reconciled, ReconciledChecks, ReconciledGauge, WellFormed, Mentioned, ReconcileDefs, Defs, Level, OfKind,
         NewStarts, Unbuildable, LateRestarts, ReplacedAway, ReplacedInto;
    EntriesAfter(defs, p, kind);
    PartsApart(defs, p, kind);
    PartSizes(OfKind(defs, kind), OfKind(defs - Mentioned(p), kind), ReplacedAway(defs, p, kind),
              ReplacedInto(defs, p, kind), NewStarts(defs.Keys, p, kind), Unbuildable(defs.Keys, p, kind),
              LateRestarts(defs.Keys, p, kind));
  }

  lemma GaugeMoved(b: Books, a: Books, p: Prep, kind: Kind)
    requires ReconciledGauge(b, a, p)
    ensures Level(a.gauge, kind) == Level(b.gauge, kind) + |NewStarts(b.checks.Keys, p, kind)|
                                    - |OfKind(Defs(b) - Mentioned(p), kind)|
  {
  }

  /** Over all types together, replacements do not matter. */
  lemma ShiftInAll(defs: map<string, CheckIn>, p: Prep)
    ensures Shift(defs, p, None) == |Unbuildable(defs.Keys, p, None)| - |LateRestarts(defs.Keys, p, None)|
  {
    assert ReplacedAway(defs, p, None) == {} && ReplacedInto(defs, p, None) == {};
  }

  /** A reset takes the checks away and leaves the gauge. */
  lemma ResetDrift(b: Books, a: Books, kind: Kind)
    requires WasReset(b, a)
    ensures Drift(a, kind) == Drift(b, kind) + |OfKind(Defs(b), kind)|
  {
    assert OfKind(Defs(a), kind) == {};
  }

  // ---- what the scheduler's validation is for ----

  predicate Buildable(p: Prep) {
    forall k <- p.actions :: Initiates(p.actions[k]) ==> Parses(p.actions[k].checkIn)
  }

  /** A complete, buildable preparation is accepted exactly if afterwards precisely its checks run and the gauge has
      not moved away from the entries. */
  lemma AcceptedIffAllRun(defs: map<string, CheckIn>, p: Prep, version: int)
    requires WellFormed(p) && Validates(p, version) && Buildable(p)
    ensures Accepts(defs.Keys, p) <==> ReconcileDefs(defs, p).Keys == p.actions.Keys && Shift(defs, p, None) == 0
  {
    var late := LateRestarts(defs.Keys, p, None);
    ShiftInAll(defs, p);
    assert Unbuildable(defs.Keys, p, None) == {};
    AllRunIff(defs, p, version);
    if late == {} {
      forall k | k in p.actions && p.actions[k].action == TypeRestart ensures k in defs {
        assert k !in late && p.actions[k].checkIn.id == k && Initiates(p.actions[k]);
      }
    } else {
      var k :| k in late;
      assert p.actions[k].checkIn.id == k && !Accepts(defs.Keys, p);
      assert |late| > 0;
    }
  }

  /** Precisely its checks run exactly if every check to be continued was there. */
  lemma AllRunIff(defs: map<string, CheckIn>, p: Prep, version: int)
    requires WellFormed(p) && Validates(p, version) && Buildable(p)
    ensures ReconcileDefs(defs, p).Keys == p.actions.Keys
       <==> forall k <- p.actions :: p.actions[k].action == TypeContinue ==> k in defs
  {
    ValidatedMentions(p, version);
    hide Mentioned;
    forall k | k in p.actions
      ensures k in ReconcileDefs(defs, p) <==> p.actions[k].action != TypeContinue || k in defs
    {
      assert Initiates(p.actions[k]) <==> p.actions[k].action != TypeContinue;
    }
    assert forall k <- ReconcileDefs(defs, p) :: k in p.actions;
  }

  /** Continued checks keep their own definitions, the others run what was sent. */
  lemma AcceptedRuns(defs: map<string, CheckIn>, p: Prep, version: int, k: string)
    requires WellFormed(p) && Validates(p, version) && Buildable(p) && Accepts(defs.Keys, p) && k in p.actions
    ensures k in ReconcileDefs(defs, p)
    ensures ReconcileDefs(defs, p)[k] == if p.actions[k].action == TypeContinue then defs[k] else p.actions[k].checkIn
  {
    ValidatedMentions(p, version);
    hide Mentioned;
    assert p.actions[k].checkIn.id == k;
  }

  // ---- runs ----

  datatype Event = ReconcileEvent(p: Prep) | ResetEvent

  /** `books` starts empty and follows `events`. */
  ghost predicate IsRun(books: seq<Books>, events: seq<Event>) {
    && |books| == |events| + 1
    && books[0] == EmptyBooks
    && forall i | 0 <= i < |events| :: Follows(books[i], books[i + 1], events[i])
  }

  ghost predicate Follows(b: Books, a: Books, e: Event) {
    match e
    case ReconcileEvent(p) => WellFormed(p) && Reconciled(b, a, p)
    case ResetEvent => WasReset(b, a)
  }

  predicate AllParse(e: Event) {
    e.ReconcileEvent? ==> forall k <- e.p.actions :: Initiates(e.p.actions[k]) ==> Parses(e.p.actions[k].checkIn)
  }

  lemma ShorterRun(books: seq<Books>, events: seq<Event>)
    requires IsRun(books, events) && |events| > 0
    ensures IsRun(books[..|events|], events[..|events| - 1])
    ensures Follows(books[|events| - 1], books[|events|], events[|events| - 1])
  {
    var n := |events| - 1;
    forall i | 0 <= i < n ensures Follows(books[..n + 1][i], books[..n + 1][i + 1], events[..n][i]) {
      assert Follows(books[i], books[i + 1], events[i]);
    }
  }

  /** In every run whose definitions can be built, no scheduled check is lost or cancelled twice. */
  lemma {:induction false} RunStaysBalanced(books: seq<Books>, events: seq<Event>)
    requires IsRun(books, events) && forall e <- events :: AllParse(e)
    ensures InOrder(books[|events|]) && Balanced(books[|events|])
  {
    if |events| > 0 {
      var n := |events| - 1;
      ShorterRun(books, events);
      assert forall e <- events[..n] :: e in events;
      RunStaysBalanced(books[..n + 1], events[..n]);
      assert AllParse(events[n]);
      match events[n]
      case ReconcileEvent(p) => ReconcileBalance(books[n], books[n + 1], p);
      case ResetEvent =>
    }
  }

  /** What one event adds to the distance between gauge and entries. */
  function EventShift(b: Books, e: Event, kind: Kind): int {
    match e
    case ReconcileEvent(p) => Shift(Defs(b), p, kind)
    case ResetEvent => |OfKind(Defs(b), kind)|
  }

  function TotalShift(books: seq<Books>, events: seq<Event>, kind: Kind): int
    requires |books| >= |events|
    decreases |events|
  {
    if |events| == 0 then 0
    else
      var n := |events| - 1;
      TotalShift(books[..n], events[..n], kind) + EventShift(books[n], events[n], kind)
  }

  lemma EventDrift(b: Books, a: Books, e: Event, kind: Kind)
    requires Follows(b, a, e)
    ensures Drift(a, kind) == Drift(b, kind) + EventShift(b, e, kind)
  {
    hide Reconciled, WasReset, Drift, Shift;
    match e
    case ReconcileEvent(p) => ReconcileDrift(b, a, p, kind);
    case ResetEvent => ResetDrift(b, a, kind);
  }

  lemma EmptyDrift(kind: Kind)
    ensures Drift(EmptyBooks, kind) == 0
  {
    assert OfKind(Defs(EmptyBooks), kind) == {};
  }

  /** In every run, whatever is reconciled and however often it is reset: how far the gauge is off. */
  lemma {:induction false} RunDrift(books: seq<Books>, events: seq<Event>, kind: Kind)
    requires IsRun(books, events)
    ensures Drift(books[|events|], kind) == TotalShift(books, events, kind)
    decreases |events|
  {
    hide Follows, Drift, EventShift;
    if |events| == 0 {
      EmptyDrift(kind);
    } else {
      var n := |events| - 1;
      ShorterRun(books, events);
      RunDrift(books[..n + 1], events[..n], kind);
      assert books[..n + 1][..n] == books[..n];
      TotalShiftPrefix(books[..n + 1], events[..n], kind);
      EventDrift(books[n], books[n + 1], events[n], kind);
    }
  }

  lemma {:induction false} TotalShiftPrefix(books: seq<Books>, events: seq<Event>, kind: Kind)
    requires |books| >= |events|
    ensures TotalShift(books, events, kind) == TotalShift(books[..|events|], events, kind)
  {
    if |events| > 0 {
      var n := |events| - 1;
      assert books[..n] == books[..|events|][..n];
    }
  }

  /** In every run the gauge shows the number of entries throughout exactly if each event shifts nothing. */
  lemma {:induction false} GaugeRightIff(books: seq<Books>, events: seq<Event>, kind: Kind)
    requires IsRun(books, events)
    ensures (forall i | 0 <= i <= |events| :: Drift(books[i], kind) == 0)
       <==> (forall i | 0 <= i < |events| :: EventShift(books[i], events[i], kind) == 0)
  {
    hide Follows, Drift, EventShift;
    if |events| == 0 {
      EmptyDrift(kind);
    } else {
      var n := |events| - 1;
      ShorterRun(books, events);
      GaugeRightIff(books[..n + 1], events[..n], kind);
      assert forall i | 0 <= i <= n :: books[..n + 1][i] == books[i];
      assert forall i | 0 <= i < n :: events[..n][i] == events[i];
      EventDrift(books[n], books[n + 1], events[n], kind);
    }
  }

  /** A sufficient condition on what is reconciled: it can be built, restarts name live checks, and, where one
      check type is asked about, replacements are of the same type. */
  predicate CountsRight(b: Books, e: Event, kind: Kind) {
    && e.ReconcileEvent? && AllParse(e) && Accepts(b.checks.Keys, e.p)
    && (kind.Some? ==> forall k <- b.checks :: BuildsAt(e.p, k) ==> e.p.actions[k].checkIn.checkType == b.checks[k].def.checkType)
  }

  /** In every run of such reconciles the gauge shows the number of entries, per type and in all. */
  lemma RunKeepsGauge(books: seq<Books>, events: seq<Event>, kind: Kind)
    requires IsRun(books, events)
    requires forall i | 0 <= i < |events| :: CountsRight(books[i], events[i], kind)
    ensures Drift(books[|events|], kind) == 0
  {
    forall i | 0 <= i < |events| ensures EventShift(books[i], events[i], kind) == 0 {
      assert Follows(books[i], books[i + 1], events[i]);
      NoShift(books[i], events[i], kind);
    }
    hide Drift, EventShift;
    GaugeRightIff(books, events, kind);
  }

  lemma NoShift(b: Books, e: Event, kind: Kind)
    requires CountsRight(b, e, kind) && WellFormed(e.p)
    ensures EventShift(b, e, kind) == 0
  {
    var defs := Defs(b);
    assert Unbuildable(defs.Keys, e.p, kind) == {} && LateRestarts(defs.Keys, e.p, kind) == {};
    assert ReplacedAway(defs, e.p, kind) == {} && ReplacedInto(defs, e.p, kind) == {};
  }

  /** Where a type changes, the gauge is wrong for both types, whether by a start or by a restart: it still shows
      one check of the old type and none of the new. */
  lemma GaugePerTypeCanDrift(was: Check, now: Check, action: ActionType) returns (b: Books, a: Books, p: Prep)
    requires was.def == CheckIn("a", "remote.tcp", "", "", "", Decodable(""))
    requires now.def == was.def.(checkType := "remote.http") && action in {TypeStart, TypeRestart}
    ensures InOrder(b) && Balanced(b) && WellFormed(p) && Accepts(b.checks.Keys, p) && Reconciled(b, a, p)
    ensures forall kind :: Drift(b, kind) == 0
    ensures At(a.gauge, "remote.tcp") == 1 && OfKind(Defs(a), Some("remote.tcp")) == {}
    ensures At(a.gauge, "remote.http") == 0 && OfKind(Defs(a), Some("remote.http")) == {"a"}
  {
    TypesDiffer();
    b := Books(map["a" := was], {was}, multiset{}, map["remote.tcp" := 1]);
    a := Books(map["a" := now], {was, now}, multiset{was}, b.gauge);
    p := Prep("", 1, map["a" := ActionableCheck(now.def, action, true)]);
    assert forall kind :: Drift(b, kind) == 0 by { OneCheckNoDrift(b); }
    hide Drift, Level;
    assert "a" in Mentioned(p) by { assert p.actions["a"].checkIn.id == "a"; }
    hide Mentioned;
    forall kind ensures NewStarts(b.checks.Keys, p, kind) == {} && OfKind(Defs(b) - Mentioned(p), kind) == {} {
    }
    assert ReconciledGauge(b, a, p);
    hide ReconciledGauge;
    assert BuildsAt(p, "a");
  }

  lemma OneCheckNoDrift(b: Books)
    requires b.checks.Keys == {"a"} && b.checks["a"].def.checkType == "remote.tcp" && b.gauge == map["remote.tcp" := 1]
    ensures forall kind :: Drift(b, kind) == 0
  {
    SumPicks(b.gauge, "remote.tcp");
    assert b.gauge - {"remote.tcp"} == map[];
    forall kind ensures Drift(b, kind) == 0 {
      assert OfKind(Defs(b), kind) == if IsKind(kind, "remote.tcp") then {"a"} else {};
    }
  }

  lemma TypesDiffer()
    ensures "remote.tcp" != "remote.http"
  {
    assert "remote.tcp"[7] == 't' && "remote.http"[7] == 'h';
  }
}
