/** The endpoint's check files: reading them, reading them again after a change, and what a poller comes to run. */
module Reloads {
  import opened Protocol
  import opened ChecksPreparations
  import opened Schedulers
  import opened Agents
  import opened Sessions
  import opened Transmissions
  import opened TwoPhaseCommit

  // ---- the ids given to the checks read ----

  const Digits := "0123456789ABCDEF"

  function Hex(n: nat): (s: string)
    ensures |s| > 0
  {
    if n < 16 then [Digits[n]] else Hex(n / 16) + [Digits[n % 16]]
  }

  /** The id of the check numbered `n`: upper-case hexadecimal, padded to eight digits at least. */
  function CheckId(n: nat): string {
    "ch" + seq(if |Hex(n)| < 8 then 8 - |Hex(n)| else 0, _ => '0') + Hex(n)
  }

  function DigitValue(c: char): nat {
    if '0' <= c <= '9' then c as nat - '0' as nat else if 'A' <= c <= 'F' then c as nat - 'A' as nat + 10 else 0
  }

  function HexValue(s: string): nat {
    if |s| == 0 then 0 else 16 * HexValue(s[..|s| - 1]) + DigitValue(s[|s| - 1])
  }

  lemma {:induction false} HexRoundTrip(n: nat)
    ensures HexValue(Hex(n)) == n
  {
    var d := n % 16;
    assert DigitValue(Digits[d]) == d by { DigitRoundTrip(d); }
    if n < 16 {
      assert Hex(n)[..0] == "";
    } else {
      HexRoundTrip(n / 16);
      assert Hex(n)[..|Hex(n)| - 1] == Hex(n / 16);
    }
  }

  lemma DigitRoundTrip(d: nat)
    requires d < 16
    ensures DigitValue(Digits[d]) == d
  {
    assert Digits[..10] == "0123456789" && Digits[10..] == "ABCDEF";
  }

  lemma {:induction false} PaddingKeepsValue(k: nat, s: string)
    ensures HexValue(seq(k, _ => '0') + s) == HexValue(s)
  {
    var zeros := seq(k, _ => '0');
    if |s| > 0 {
      PaddingKeepsValue(k, s[..|s| - 1]);
      assert (zeros + s)[..k + |s| - 1] == zeros + s[..|s| - 1];
    } else if k > 0 {
      PaddingKeepsValue(k - 1, "");
      assert zeros + s == zeros;
      assert zeros[..k - 1] == seq(k - 1, _ => '0') + "";
    }
  }

  /** Different numbers give different ids, beyond eight digits too. */
  lemma CheckIdsDiffer(m: nat, n: nat)
    requires CheckId(m) == CheckId(n)
    ensures m == n
  {
    IdValue(m);
    IdValue(n);
  }

  /** "ch", then hexadecimal digits: eight up to 2^32 - 1, as many as needed beyond. */
  lemma IdShape(n: nat)
    ensures CheckId(n)[..2] == "ch" && |CheckId(n)| >= 10
    ensures n < 0x1_0000_0000 ==> |CheckId(n)| == 10
    ensures n >= 0x1000_0000 ==> CheckId(n)[2] != '0'
  {
    HexLength(n, 8);
    HexLead(n);
    if n >= 0x1000_0000 {
      HexLongEnough(n);
      assert CheckId(n) == "ch" + "" + Hex(n);
    }
  }

  function Power16(k: nat): nat { if k == 0 then 1 else 16 * Power16(k - 1) }

  lemma {:induction false} HexLength(n: nat, k: nat)
    requires k > 0
    ensures n < Power16(k) ==> |Hex(n)| <= k
  {
    assert Power16(k) == 16 * Power16(k - 1);
    if n >= 16 && k > 1 {
      HexLength(n / 16, k - 1);
    }
  }

  lemma {:induction false} HexLead(n: nat)
    ensures n > 0 ==> Hex(n)[0] != '0'
  {
    if n < 16 {
      assert Digits[..1] == "0" && forall d | 1 <= d < 16 :: Digits[d] != '0' by { DigitsDiffer(); }
    } else {
      HexLead(n / 16);
    }
  }

  lemma DigitsDiffer()
    ensures forall d | 1 <= d < 16 :: Digits[d] != '0'
  {
    forall d | 1 <= d < 16 ensures Digits[d] != '0' {
      DigitRoundTrip(d);
    }
  }

  lemma HexLongEnough(n: nat)
    requires n >= 0x1000_0000
    ensures |Hex(n)| >= 8
  {
    HexAtLeast(n, 7);
  }

  lemma {:induction false} HexAtLeast(n: nat, k: nat)
    requires n >= Power16(k)
    ensures |Hex(n)| > k
  {
    if k > 0 {
      HexAtLeast(n / 16, k - 1);
    }
  }

  lemma IdValue(n: nat)
    ensures HexValue(CheckId(n)[2..]) == n
  {
    var k := if |Hex(n)| < 8 then 8 - |Hex(n)| else 0;
    assert CheckId(n)[2..] == seq(k, _ => '0') + Hex(n);
    PaddingKeepsValue(k, Hex(n));
    HexRoundTrip(n);
  }

  // ---- reading the files ----

  /** What a file holds: no JSON of a check at all, the JSON null, or a check. */
  datatype File = NotACheck | NullCheck | Content(check: CheckIn)

  /** Neither a null check nor missing details are looked out for. */
  predicate CrashesReading(f: File) {
    f.NullCheck? || (f.Content? && KnownType(f.check) && f.check.details.Absent?)
  }

  predicate ReadingCrashes(files: seq<File>) {
    exists f <- files :: CrashesReading(f)
  }

  /** Files that hold no check that can be built are passed over; every check read gets the next number. */
  function Load(checkId: nat, files: seq<File>): (nat, seq<CheckIn>) {
    if |files| == 0 then (checkId, [])
    else
      var (n, checks) := Load(checkId, files[..|files| - 1]);
      var f := files[|files| - 1];
      if f.Content? && Parses(f.check) then (n + 1, checks + [f.check.(id := CheckId(n + 1))]) else (n, checks)
  }

  lemma {:induction false} LoadNumbers(checkId: nat, files: seq<File>)
    ensures var (n, checks) := Load(checkId, files);
            && n == checkId + |checks|
            && forall i | 0 <= i < |checks| :: Parses(checks[i]) && checks[i].id == CheckId(checkId + 1 + i)
  {
    hide CheckId;
    if |files| > 0 {
      LoadNumbers(checkId, files[..|files| - 1]);
    }
  }

  predicate Yields(f: File) { f.Content? && Parses(f.check) }

  function Yielding(files: seq<File>): seq<CheckIn> {
    if |files| == 0 then []
    else
      var f := files[|files| - 1];
      Yielding(files[..|files| - 1]) + if Yields(f) then [f.check] else []
  }

  /** What is read is what the files hold, in their order, but for the ids. */
  lemma {:induction false} LoadKeepsContent(checkId: nat, files: seq<File>)
    ensures var checks := Load(checkId, files).1;
            && |checks| == |Yielding(files)|
            && forall i | 0 <= i < |checks| :: checks[i] == Yielding(files)[i].(id := CheckId(checkId + 1 + i))
  {
    hide CheckId;
    LoadNumbers(checkId, files);
    if |files| > 0 {
      LoadNumbers(checkId, files[..|files| - 1]);
      LoadKeepsContent(checkId, files[..|files| - 1]);
    }
  }

  class CheckLoader {
    var checkId: nat

    constructor ()
      ensures checkId == 0
    {
      checkId := 0;
    }

    /** Unless a file crashes the endpoint. */
    method LoadChecks(files: seq<File>) returns (crashed: bool, checks: seq<CheckIn>)
      modifies this
      ensures crashed <==> ReadingCrashes(files)
      ensures !crashed ==> (checkId, checks) == Load(old(checkId), files)
    {
      checks := [];
      for i := 0 to |files|
        invariant (checkId, checks) == Load(old(checkId), files[..i]) && !ReadingCrashes(files[..i])
      {
        assert files[..i + 1][..i] == files[..i] && files[..i + 1] == files[..i] + [files[i]];
        assert files[i] in files && (CrashesReading(files[i]) ==> ReadingCrashes(files));
        match files[i]
        case NotACheck =>
        case NullCheck => return true, [];
        case Content(check) =>
          if KnownType(check) {
            match check.details
            case Absent => return true, [];
            case Malformed(_) =>
            case Decodable(_) =>
              checkId := checkId + 1;
              checks := checks + [check.(id := CheckId(checkId))];
          }
      }
      assert files[..|files|] == files;
      crashed := false;
    }
  }

  // ---- the system when everything transmitted comes from reading the files ----

  /** `halted` once the endpoint has crashed. */
  datatype Loading = Loading(system: System, checkId: nat, halted: bool)

  datatype LoadStep = ReadFiles(files: seq<File>) | Proceed(step: Step)

  /** The schedulers' verdict on the prepare the session reads next. */
  predicate Verdict(s: System) {
    s.toPoller != [] && s.toPoller[0].PollerPrepare? ==>
      var f := s.toPoller[0];
      var p := NewPreparation(f.zoneId, f.version, f.manifest);
      p.Some? ==> forall z <- s.zones :: Accepts(s.zones[z].defs.Keys, p.value)
  }

  /** What is read first is all to be started; what is read later is classified. */
  function ApplyLoad(l: Loading, e: LoadStep): Loading {
    match e
    case ReadFiles(files) =>
      var (n, checks) := Load(l.checkId, files);
      if l.halted then l
      else if ReadingCrashes(files) then l.(halted := true)
      else if l.system.agent.checksVersion == 0 then
        l.(system := Apply(l.system, Transmit(checks, [])), checkId := n)
      else
        var classes := Classify(l.system.agent.committedChecks, checks);
        if classes.None? then l.(checkId := n, halted := true)
        else l.(system := Apply(l.system, Transmit(classes.value.0, classes.value.1)), checkId := n)
    case Proceed(step) =>
      match step
      case Transmit(_, _) => l
      case AgentReads => if l.halted then l else l.(system := Apply(l.system, AgentReads))
      case SessionReads(_) => l.(system := Apply(l.system, SessionReads(Verdict(l.system))))
      case _ => l.(system := Apply(l.system, step))
  }

  function RunLoading(blockSize: nat, zoneIds: set<string>, events: seq<LoadStep>): Loading {
    if |events| == 0 then Loading(Initial(blockSize, zoneIds), 0, false)
    else ApplyLoad(RunLoading(blockSize, zoneIds, events[..|events| - 1]), events[|events| - 1])
  }

  // ---- nothing read later is ever accepted ----

  predicate GivenOut(id: string, checkId: nat) {
    exists k | 1 <= k <= checkId :: id == CheckId(k)
  }

  /** All ids were given out; no two versions share one; the first only starts, later ones only restart. */
  ghost predicate Fresh(sent: map<int, Sent>, checkId: nat) {
    && (forall v <- sent :: forall id <- Ids(Checks(sent[v])) :: GivenOut(id, checkId))
    && (forall u, v | u in sent && v in sent && u != v :: Ids(Checks(sent[u])) !! Ids(Checks(sent[v])))
    && (forall v <- sent :: if v == 1 then sent[v].restart == [] else sent[v].start == [])
  }

  /** The first version, or one that asks for no checks at all. */
  predicate Harmless(sent: map<int, Sent>, version: int) {
    version in sent && (version == 1 || Checks(sent[version]) == [])
  }

  ghost predicate OnlyHarmless(s: System) {
    && (forall p <- s.history.handed :: Harmless(s.history.sent, p.version))
    && (s.session.active.Some? ==> Harmless(s.history.sent, s.session.active.value.version))
  }

  ghost predicate Known(committed: Option<set<string>>, checkId: nat) {
    committed.Some? ==> forall id <- committed.value :: GivenOut(id, checkId)
  }

  ghost predicate LoadInv(l: Loading) {
    && Inv(l.system)
    && l.system.zones.Keys != {}
    && Fresh(l.system.history.sent, l.checkId)
    && Known(l.system.agent.committedChecks, l.checkId)
    && OnlyHarmless(l.system)
  }

  lemma LoadedAreNew(checkId: nat, files: seq<File>)
    ensures var (n, checks) := Load(checkId, files);
            && n >= checkId
            && forall id <- Ids(checks) :: GivenOut(id, n) && !GivenOut(id, checkId)
  {
    var (n, checks) := Load(checkId, files);
    LoadNumbers(checkId, files);
    forall id | id in Ids(checks) ensures GivenOut(id, n) && !GivenOut(id, checkId) {
      var i :| 0 <= i < |checks| && checks[i].id == id;
      forall k | 1 <= k <= checkId ensures id != CheckId(k) {
        if id == CheckId(k) {
          CheckIdsDiffer(k, checkId + 1 + i);
        }
      }
    }
  }

  lemma KnownGrows(committed: Option<set<string>>, checkId: nat, n: nat)
    requires Known(committed, checkId) && checkId <= n
    ensures Known(committed, n)
  {
  }

  lemma FreshGrows(sent: map<int, Sent>, checkId: nat, n: nat)
    requires Fresh(sent, checkId) && checkId <= n
    ensures Fresh(sent, n)
  {
  }

  lemma FreshAdds(sent: map<int, Sent>, checkId: nat, v: int, b: Sent, n: nat)
    requires Fresh(sent, checkId) && v !in sent && checkId <= n
    requires if v == 1 then b.restart == [] else b.start == []
    requires forall id <- Ids(Checks(b)) :: GivenOut(id, n) && !GivenOut(id, checkId)
    ensures Fresh(sent[v := b], n)
  {
    FreshGrows(sent, checkId, n);
  }

  /** Checks whose ids were never seen are all put on the restart list. */
  lemma {:induction false} AllToRestart(committed: set<string>, checks: seq<CheckIn>)
    requires forall i | 0 <= i < |checks| :: checks[i].id !in committed
    ensures Classify(Some(committed), checks) == Some(([], checks))
  {
    if |checks| > 0 {
      var n := |checks| - 1;
      assert forall i | 0 <= i < n :: checks[..n][i] == checks[i];
      assert checks[n].id !in committed;
      AllToRestart(committed, checks[..n]);
      assert checks == checks[..n] + [checks[n]];
    }
  }

  lemma OnlyHarmlessStays(s: System, sent: map<int, Sent>, v: int, b: Sent)
    requires OnlyHarmless(s) && v !in s.history.sent && sent == s.history.sent[v := b]
    ensures OnlyHarmless(s.(history := s.history.(sent := sent)))
  {
  }

  lemma TransmitLoaded(l: Loading, files: seq<File>, start: seq<CheckIn>, restart: seq<CheckIn>)
    requires LoadInv(l) && start + restart == Load(l.checkId, files).1
    requires if l.system.agent.checksVersion == 0 then restart == [] else start == []
    ensures LoadInv(l.(system := Apply(l.system, Transmit(start, restart)), checkId := Load(l.checkId, files).0))
  {
    hide Inv, OnlyHarmless, Fresh, Known, Load, GivenOut, CheckId, Parses, Transmission, CheckIds;
    var s := l.system;
    var (n, checks) := Load(l.checkId, files);
    LoadNumbers(l.checkId, files);
    LoadedAreNew(l.checkId, files);
    assert forall c <- start + restart :: Parses(c);
    TransmitKeepsInv(s, start, restart);
    var v, b := s.agent.checksVersion + 1, Sent(s.agent.outMsgId + 1, start, restart);
    assert v !in s.history.sent by { NextVersionUnsent(s); }
    FreshAdds(s.history.sent, l.checkId, v, b, n);
    KnownGrows(s.agent.committedChecks, l.checkId, n);
    OnlyHarmlessStays(s, s.history.sent[v := b], v, b);
    HarmlessFrame(s.(history := s.history.(sent := s.history.sent[v := b])), Apply(s, Transmit(start, restart)));
  }

  lemma NextVersionUnsent(s: System)
    requires Inv(s)
    ensures s.agent.checksVersion + 1 !in s.history.sent
  {
  }

  lemma HarmlessFrame(s: System, s': System)
    requires OnlyHarmless(s) && s'.history.sent == s.history.sent && s'.history.handed == s.history.handed
    requires s'.session.active.None? || (s.session.active.Some? && s'.session.active.value.version == s.session.active.value.version)
    ensures OnlyHarmless(s')
  {
  }

  lemma ReadKeepsLoadInv(l: Loading, files: seq<File>)
    requires LoadInv(l)
    ensures LoadInv(ApplyLoad(l, ReadFiles(files)))
  {
    hide LoadInv, Load, Apply, Classify, ReadingCrashes;
    var checks := Load(l.checkId, files).1;
    if !l.halted && !ReadingCrashes(files) {
      if l.system.agent.checksVersion == 0 {
        assert checks + [] == checks;
        TransmitLoaded(l, files, checks, []);
      } else {
        ReadAgainKeepsLoadInv(l, files);
      }
    } else if !l.halted {
      HaltKeepsLoadInv(l, l.checkId);
    }
  }

  lemma HaltKeepsLoadInv(l: Loading, n: nat)
    requires LoadInv(l) && l.checkId <= n
    ensures LoadInv(l.(checkId := n, halted := true))
  {
    hide Inv, OnlyHarmless, Fresh, Known;
    FreshGrows(l.system.history.sent, l.checkId, n);
    KnownGrows(l.system.agent.committedChecks, l.checkId, n);
  }

  /** Nothing read again can be known as committed. */
  lemma ReadAgainKeepsLoadInv(l: Loading, files: seq<File>)
    requires LoadInv(l) && l.system.agent.checksVersion != 0
    ensures var (n, checks) := Load(l.checkId, files);
            match Classify(l.system.agent.committedChecks, checks)
            case None => LoadInv(l.(checkId := n, halted := true))
            case Some((start, restart)) => LoadInv(l.(system := Apply(l.system, Transmit(start, restart)), checkId := n))
  {
    hide Load, Apply;
    var (n, checks) := Load(l.checkId, files);
    var committed := l.system.agent.committedChecks;
    LoadedAreNew(l.checkId, files);
    ClassifyPartitions(committed, checks);
    if committed.None? {
      HaltKeepsLoadInv(l, n);
    } else {
      NoneCommitted(committed, l.checkId, checks, n);
      AllToRestart(committed.value, checks);
    }
    hide LoadInv;
    if committed.Some? || checks == [] {
      assert [] + checks == checks;
      TransmitLoaded(l, files, [], checks);
    }
  }

  lemma NoneCommitted(committed: Option<set<string>>, checkId: nat, checks: seq<CheckIn>, n: nat)
    requires committed.Some? && Known(committed, checkId)
    requires forall id <- Ids(checks) :: GivenOut(id, n) && !GivenOut(id, checkId)
    ensures forall i | 0 <= i < |checks| :: checks[i].id !in committed.value
  {
    assert forall i | 0 <= i < |checks| :: checks[i].id in Ids(checks);
  }

  // ---- the other steps ----

  lemma AgentReadsKnown(a: Agent, r: Response, sent: map<int, Sent>, checkId: nat)
    requires AgentOk(a, sent) && Fresh(sent, checkId) && Known(a.committedChecks, checkId)
    ensures Known(Receive(a, r).0.committedChecks, checkId)
  {
    if r.id in a.pending && Receive(a, r).0.committedChecks != a.committedChecks {
      SetOfCheckIds(Checks(sent[a.pending[r.id].version]));
    }
  }

  /** What a scheduler runs was asked for by a version handed over. */
  lemma RunsWhatWasHanded(s: System, z: string, id: string)
    requires Inv(s) && z in s.zones && id in s.zones[z].defs
    ensures exists p <- s.history.handed :: p.version in s.history.sent && id in Ids(Checks(s.history.sent[p.version]))
  {
    var h, done := s.history, |s.history.handed| - |s.zones[z].queue|;
    assert ZoneOk(s.zones[z], h);
    assert h.handed[..done][done - 1] == h.handed[done - 1] && h.handed[done - 1] in h.handed;
  }

  lemma VerdictIsHarmless(l: Loading)
    requires LoadInv(l) && l.system.toPoller != [] && l.system.toPoller[0].PollerPrepare?
    ensures Verdict(l.system) <==> Harmless(l.system.history.sent, l.system.toPoller[0].version)
  {
    hide Inv, Known, OnlyHarmless, Accepts;
    var s := l.system;
    var sent, f := s.history.sent, s.toPoller[0];
    var v := f.version;
    assert v in sent && v > s.history.newest && f == Source(v, sent[v]) by { HeadIsSource(s); }
    ManifestDeclares(sent[v], "");
    if Harmless(sent, v) {
      assert sent[v].restart == [];
      forall z | z in s.zones
        ensures Accepts(s.zones[z].defs.Keys, NewPreparation("", v, ManifestOf(sent[v].start, sent[v].restart)).value)
      {
        KnownRestartsAccepted(s.zones[z].defs.Keys, sent[v].start, sent[v].restart, v);
      }
    } else {
      LaterIsRejected(l, v);
    }
  }

  lemma LaterIsRejected(l: Loading, v: int)
    requires LoadInv(l) && l.system.history.newest < v && v in l.system.history.sent && !Harmless(l.system.history.sent, v)
    ensures var b := l.system.history.sent[v];
            var p := NewPreparation("", v, ManifestOf(b.start, b.restart));
            p.Some? && exists z <- l.system.zones :: !Accepts(l.system.zones[z].defs.Keys, p.value)
  {
    hide Inv, Known, OnlyHarmless, Accepts;
    var s, b := l.system, l.system.history.sent[v];
    var z :| z in s.zones;
    var c := b.restart[0];
    assert c.id in Ids(Checks(b)) by { assert Checks(b)[0] == c; }
    HandedWereRead(s);
    if c.id in s.zones[z].defs {
      RunsWhatWasHanded(s, z, c.id);
      assert false;
    }
    NewRestartRejected(s.zones[z].defs.Keys, [], b.restart, v, c);
  }

  lemma HeadIsSource(s: System)
    requires Inv(s) && s.toPoller != [] && s.toPoller[0].PollerPrepare?
    ensures var v := s.toPoller[0].version;
            v in s.history.sent && v > s.history.newest && s.toPoller[0] == Source(v, s.history.sent[v])
  {
  }

  lemma HandedWereRead(s: System)
    requires Inv(s)
    ensures forall p <- s.history.handed :: p.version <= s.history.newest
  {
  }

  lemma SessionReadsHarmless(l: Loading)
    requires LoadInv(l) && l.system.toPoller != [] && l.system.session.fault.None?
    ensures OnlyHarmless(Apply(l.system, SessionReads(Verdict(l.system))))
  {
    hide Inv, Fresh, Known, HandleFrame, Verdict, Harmless;
    var s := l.system;
    FrameHandsOrHolds(s.session, s.toPoller[0], Verdict(s));
    if s.toPoller[0].PollerPrepare? {
      VerdictIsHarmless(l);
    }
  }

  lemma ZonesStay(s: System, step: Step)
    ensures Apply(s, step).zones.Keys == s.zones.Keys
  {
  }

  lemma SessionKeepsLoadInv(l: Loading)
    requires LoadInv(l)
    ensures LoadInv(l.(system := Apply(l.system, SessionReads(Verdict(l.system)))))
  {
    hide Inv, Fresh, Known, OnlyHarmless, HandleFrame, Verdict;
    var s := l.system;
    StepKeepsInv(s, SessionReads(Verdict(s)));
    ZonesStay(s, SessionReads(Verdict(s)));
    if s.toPoller != [] && s.session.fault.None? {
      SessionReadsHarmless(l);
    }
  }

  lemma ProceedKeepsLoadInv(l: Loading, step: Step)
    requires LoadInv(l)
    ensures LoadInv(ApplyLoad(l, Proceed(step)))
  {
    hide Inv, Fresh, Known, OnlyHarmless, HandleFrame, Verdict;
    var s := l.system;
    ZonesStay(s, step);
    match step
    case Transmit(_, _) =>
    case SessionReads(_) => SessionKeepsLoadInv(l);
    case AgentReads =>
      StepKeepsInv(s, step);
      if s.toAgent != [] {
        AgentOfInv(s);
        AgentReadsKnown(s.agent, s.toAgent[0], s.history.sent, l.checkId);
      }
      HarmlessFrame(s, Apply(s, step));
    case _ =>
      StepKeepsInv(s, step);
      HarmlessFrame(s, Apply(s, step));
  }

  lemma AgentOfInv(s: System)
    requires Inv(s)
    ensures AgentOk(s.agent, s.history.sent)
  {
  }

  lemma {:induction false} RunLoadInv(blockSize: nat, zoneIds: set<string>, events: seq<LoadStep>)
    requires zoneIds != {}
    ensures LoadInv(RunLoading(blockSize, zoneIds, events))
  {
    if |events| == 0 {
      InitialInv(blockSize, zoneIds);
      var z :| z in zoneIds;
      assert z in Initial(blockSize, zoneIds).zones;
    } else {
      var n := |events| - 1;
      RunLoadInv(blockSize, zoneIds, events[..n]);
      match events[n]
      case ReadFiles(files) => ReadKeepsLoadInv(RunLoading(blockSize, zoneIds, events[..n]), files);
      case Proceed(step) => ProceedKeepsLoadInv(RunLoading(blockSize, zoneIds, events[..n]), step);
    }
  }

  /** In every run, the schedulers accept a prepare exactly if it is the first or brings no check at all. */
  lemma ReloadAcceptedIffEmpty(blockSize: nat, zoneIds: set<string>, events: seq<LoadStep>)
    requires zoneIds != {}
    ensures var s := RunLoading(blockSize, zoneIds, events).system;
            s.toPoller != [] && s.toPoller[0].PollerPrepare? ==>
              (Verdict(s) <==> Harmless(s.history.sent, s.toPoller[0].version))
  {
    hide LoadInv, Verdict, Harmless;
    RunLoadInv(blockSize, zoneIds, events);
    var l := RunLoading(blockSize, zoneIds, events);
    if l.system.toPoller != [] && l.system.toPoller[0].PollerPrepare? {
      VerdictIsHarmless(l);
    }
  }

  /** No check read later ever takes effect. However often files are read again, and whatever the timing, a poller
      never runs anything but the checks read first, or none; and only these, or none, are ever committed. */
  lemma LaterChecksNeverRun(blockSize: nat, zoneIds: set<string>, events: seq<LoadStep>, z: string)
    requires z in zoneIds
    ensures var s := RunLoading(blockSize, zoneIds, events).system;
            && (forall p <- s.history.handed :: p.version == 1 || p.actions == map[])
            && z in s.zones
            && (s.zones[z].defs == map[] || (1 in s.history.sent && s.zones[z].defs == Wanted(s.history.sent[1])))
  {
    RunLoadInv(blockSize, zoneIds, events);
    RunZones(blockSize, zoneIds, events);
    var s := RunLoading(blockSize, zoneIds, events).system;
    var h := s.history;
    forall p | p in h.handed ensures p.version == 1 || p.actions == map[] {
      assert Harmless(h.sent, p.version) && p == FinalPrep(p.version, h.sent[p.version]);
      FinalValidates(p.version, h.sent[p.version]);
    }
    RunsHarmless(s, z);
  }

  lemma RunsHarmless(s: System, z: string)
    requires Inv(s) && OnlyHarmless(s) && z in s.zones
    ensures s.zones[z].defs == map[] || (1 in s.history.sent && s.zones[z].defs == Wanted(s.history.sent[1]))
  {
    var h, done := s.history, |s.history.handed| - |s.zones[z].queue|;
    assert ZoneOk(s.zones[z], h);
    if done > 0 {
      assert h.handed[..done][done - 1] == h.handed[done - 1] && h.handed[done - 1] in h.handed;
    }
  }

  lemma {:induction false} RunZones(blockSize: nat, zoneIds: set<string>, events: seq<LoadStep>)
    ensures RunLoading(blockSize, zoneIds, events).system.zones.Keys == zoneIds
  {
    if |events| > 0 {
      RunZones(blockSize, zoneIds, events[..|events| - 1]);
    }
  }
}
