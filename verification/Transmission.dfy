/** What one transmission carries, and what a poller makes of it. */
module Transmissions {
  import opened Protocol
  import opened ChecksPreparations
  import opened Schedulers
  import opened Agents

  /** What the endpoint sent under one version: the id of the prepare message and the two lists. */
  datatype Sent = Sent(id: nat, start: seq<CheckIn>, restart: seq<CheckIn>)

  function Checks(b: Sent): seq<CheckIn> { b.start + b.restart }

  function Source(version: int, b: Sent): Request {
    PollerPrepare(b.id, "", version, ManifestOf(b.start, b.restart))
  }

  /** The preparation once everything sent under the version has arrived. */
  function FinalPrep(version: int, b: Sent): Prep {
    Prep("", version, DefineAll(DeclareAll(ManifestOf(b.start, b.restart)), Checks(b)))
  }

  /** The definitions that `b` asks for; of definitions with the same id the last one counts. */
  function Wanted(b: Sent): map<string, CheckIn> {
    map k | k in Ids(Checks(b)) :: LastDefinition(Checks(b), k)
  }

  lemma ManifestDeclares(b: Sent, id: string)
    ensures AllSupported(ManifestOf(b.start, b.restart))
    ensures Declares(ManifestOf(b.start, b.restart), id) <==> id in Ids(Checks(b))
    ensures Declares(ManifestOf(b.start, b.restart), id) ==>
              LastAction(ManifestOf(b.start, b.restart), id) in {Start, Restart}
  {
    var m, cs := ManifestOf(b.start, b.restart), Checks(b);
    assert |m| == |cs| && forall i | 0 <= i < |m| :: m[i].id == cs[i].id;
    if Declares(m, id) {
      LastActionAmong(m, id);
    }
  }

  lemma {:induction false} LastActionAmong(m: seq<ManifestEntry>, id: string)
    requires Declares(m, id) && forall i | 0 <= i < |m| :: m[i].action in {Start, Restart}
    ensures LastAction(m, id) in {Start, Restart}
  {
    var n := |m| - 1;
    if m[n].id != id {
      assert forall i | 0 <= i < n :: m[..n][i] == m[i];
      LastActionAmong(m[..n], id);
    }
  }

  /** Every entry of the complete preparation: to be started or restarted, populated by its last definition. */
  lemma FinalEntry(version: int, b: Sent, id: string)
    ensures var p := FinalPrep(version, b);
            && (id in p.actions <==> id in Ids(Checks(b)))
            && (id in p.actions ==>
                  && Initiates(p.actions[id])
                  && p.actions[id].populated
                  && p.actions[id].checkIn == LastDefinition(Checks(b), id)
                  && p.actions[id].checkIn.id == id)
  {
    ManifestDeclares(b, id);
    DeclareAllAt(ManifestOf(b.start, b.restart), id);
    DefineAllAt(DeclareAll(ManifestOf(b.start, b.restart)), Checks(b), id);
  }

  lemma FinalValidates(version: int, b: Sent)
    ensures Validates(FinalPrep(version, b), version)
    ensures WellFormed(FinalPrep(version, b))
    ensures FinalPrep(version, b).actions.Keys == Ids(Checks(b)) == Wanted(b).Keys
  {
    var p := FinalPrep(version, b);
    forall k
      ensures k in p.actions <==> k in Ids(Checks(b))
      ensures k in p.actions ==> Initiates(p.actions[k]) && p.actions[k].populated && p.actions[k].checkIn.id == k
    {
      FinalEntry(version, b, k);
    }
  }

  /** The round trip: what the endpoint cuts and sends, the poller reassembles and finds valid,
      for all lists and all block sizes. */
  lemma RoundTrip(version: int, b: Sent, size: nat)
    ensures var manifest, blocks := ManifestOf(b.start, b.restart), Blocks(Checks(b), size);
            && NewPreparation("", version, manifest).Some?
            && Received(NewPreparation("", version, manifest).value, blocks) == FinalPrep(version, b)
            && Validates(FinalPrep(version, b), version)
  {
    ManifestDeclares(b, "");
    BlocksAreACutting(Checks(b), size);
    ReceivedIsFlat(NewPreparation("", version, ManifestOf(b.start, b.restart)).value, Blocks(Checks(b), size));
    FinalValidates(version, b);
  }

  /** Reconciling a complete preparation whose definitions can be built yields what was wanted,
      whatever was running before. */
  lemma ReconcileFinal(defs: map<string, CheckIn>, version: int, b: Sent)
    requires forall c <- Checks(b) :: Parses(c)
    ensures ReconcileDefs(defs, FinalPrep(version, b)) == Wanted(b)
  {
    var p := FinalPrep(version, b);
    FinalValidates(version, b);
    ValidatedMentions(p, version);
    hide Mentioned;
    forall k
      ensures k in ReconcileDefs(defs, p) <==> k in Wanted(b)
      ensures k in Wanted(b) ==> ReconcileDefs(defs, p)[k] == Wanted(b)[k]
    {
      FinalEntry(version, b, k);
    }
  }

  /** It crashes the poller exactly if a definition that counts has no details. */
  lemma FinalCrashesIff(version: int, b: Sent)
    ensures Crashes(FinalPrep(version, b)) <==> exists k <- Wanted(b) :: Wanted(b)[k].details.Absent?
  {
    var p := FinalPrep(version, b);
    forall k
      ensures k in p.actions <==> k in Wanted(b)
      ensures k in Wanted(b) ==> (CrashesOn(p.actions[k]) <==> Wanted(b)[k].details.Absent?)
    {
      FinalEntry(version, b, k);
    }
    if Crashes(p) {
      var k :| k in p.actions && CrashesOn(p.actions[k]);
      assert k in Wanted(b) && Wanted(b)[k].details.Absent?;
    }
    if exists k <- Wanted(b) :: Wanted(b)[k].details.Absent? {
      var k :| k in Wanted(b) && Wanted(b)[k].details.Absent?;
      assert CrashesOn(p.actions[k]);
    }
  }

  // ---- reloading the checks ----

  lemma {:induction false} LastActionIs(m: seq<ManifestEntry>, id: string, action: Action)
    requires Declares(m, id) && forall i | 0 <= i < |m| && m[i].id == id :: m[i].action == action
    ensures LastAction(m, id) == action
  {
    var n := |m| - 1;
    if m[n].id != id {
      assert forall i | 0 <= i < n :: m[..n][i] == m[i];
      LastActionIs(m[..n], id, action);
    }
  }

  /** Starts are accepted whatever is running, restarts if the check is. */
  lemma KnownRestartsAccepted(ids: set<string>, start: seq<CheckIn>, restart: seq<CheckIn>, version: int)
    requires forall c <- restart :: c.id in ids
    ensures var p := NewPreparation("", version, ManifestOf(start, restart));
            p.Some? && Accepts(ids, p.value)
  {
    var m := ManifestOf(start, restart);
    ManifestDeclares(Sent(0, start, restart), "");
    forall k | k in DeclareAll(m)
      ensures DeclareAll(m)[k].action in {TypeRestart, TypeContinue} ==> DeclareAll(m)[k].checkIn.id in ids
    {
      DeclareAllAt(m, k);
      ManifestDeclares(Sent(0, start, restart), k);
      if k !in ids {
        forall j | 0 <= j < |m| && m[j].id == k ensures m[j].action == Start {
          assert forall i | 0 <= i < |restart| :: restart[i].id in ids;
        }
        LastActionIs(m, k, Start);
      }
    }
  }

  /** A restart of a check that does not exist and is not also started: rejected. */
  lemma NewRestartRejected(ids: set<string>, start: seq<CheckIn>, restart: seq<CheckIn>, version: int, c: CheckIn)
    requires c in restart && c.id !in ids && forall d <- start :: d.id in ids
    ensures var p := NewPreparation("", version, ManifestOf(start, restart));
            p.Some? && !Accepts(ids, p.value)
  {
    var m := ManifestOf(start, restart);
    ManifestDeclares(Sent(0, start, restart), c.id);
    var i :| 0 <= i < |restart| && restart[i] == c;
    assert m[|start| + i].id == c.id;
    assert forall j | 0 <= j < |start| :: start[j].id in ids;
    assert forall j | 0 <= j < |m| && m[j].id == c.id :: m[j].action == Restart;
    LastActionIs(m, c.id, Restart);
    DeclareAllAt(m, c.id);
  }

  /** When the schedulers run what the agent believes committed, a reload is accepted exactly if it brings
      no check that is new: new ids are put on the restart list, and a restart needs a check that exists. */
  lemma ReloadAcceptedIffNothingNew(committed: set<string>, checks: seq<CheckIn>, start: seq<CheckIn>,
                                    restart: seq<CheckIn>, version: int)
    requires Classify(Some(committed), checks) == Some((start, restart))
    ensures var p := NewPreparation("", version, ManifestOf(start, restart));
            p.Some? && (Accepts(committed, p.value) <==> forall c <- checks :: c.id in committed)
  {
    ClassifyPartitions(Some(committed), checks);
    assert forall c :: c in checks <==> c in multiset(checks);
    assert forall c :: c in multiset(start) + multiset(restart) <==> c in start || c in restart;
    if forall c <- checks :: c.id in committed {
      KnownRestartsAccepted(committed, start, restart, version);
    } else {
      var c :| c in checks && c.id !in committed;
      assert c in restart;
      NewRestartRejected(committed, start, restart, version, c);
    }
  }

  /** Repaired: with the two lists exchanged, every reload would be accepted. */
  lemma ExchangedReloadAccepted(committed: set<string>, checks: seq<CheckIn>, known: seq<CheckIn>,
                                unknown: seq<CheckIn>, version: int)
    requires Classify(Some(committed), checks) == Some((known, unknown))
    ensures var p := NewPreparation("", version, ManifestOf(unknown, known));
            p.Some? && Accepts(committed, p.value)
  {
    ClassifyPartitions(Some(committed), checks);
    KnownRestartsAccepted(committed, unknown, known, version);
  }
}
