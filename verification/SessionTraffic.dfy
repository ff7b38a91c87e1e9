/** The session against arbitrary requests, not only those an agent generates. */
module SessionTraffic {
  import opened Protocol
  import opened ChecksPreparations
  import opened Sessions
  import Schedulers

  datatype Input = Frame(f: Request, accepts: bool) | Fire | ReadTimer

  datatype SessionRun = SessionRun(s: Session, handed: seq<Prep>)

  /** With `repaired`, a commit also records the version; the code as it is never does. */
  function StepSession(run: SessionRun, i: Input, repaired: bool): SessionRun {
    var s := run.s;
    if s.fault.Some? then run
    else
      match i
      case Frame(f, accepts) =>
        var o := HandleFrame(s, f, accepts);
        var next := if repaired && o.handed != [] then o.next.(newestCommitted := f.version) else o.next;
        SessionRun(next, run.handed + o.handed)
      case Fire => if s.timer == Some(Running) then run.(s := s.(timer := Some(Fired))) else run
      case ReadTimer => if s.timer == Some(Fired) then run.(s := HandleTimeout(s).next) else run
  }

  function RunSession(inputs: seq<Input>, repaired: bool): SessionRun {
    if |inputs| == 0 then SessionRun(NewSession, [])
    else StepSession(RunSession(inputs[..|inputs| - 1], repaired), inputs[|inputs| - 1], repaired)
  }

  // ---- which inputs stop the session ----

  /** Holds in every run until a fault: message and preparation together, timer and flag only with them. */
  ghost predicate Shaped(s: Session) {
    && (s.active.None? <==> s.src.None?)
    && (s.timer.Some? || s.prepared ==> s.active.Some?)
    && (s.active.Some? ==> s.src.value.PollerPrepare? && s.src.value.version == s.active.value.version)
  }

  lemma FrameKeepsShape(s: Session, f: Request, accepts: bool)
    requires Shaped(s)
    ensures var next := HandleFrame(s, f, accepts).next;
            next.fault.None? ==> Shaped(next)
  {
    hide DeclareAll, DefineAll, Validates, AllSupported;
  }

  lemma {:induction false} RunShaped(inputs: seq<Input>, repaired: bool)
    ensures RunSession(inputs, repaired).s.fault.None? ==> Shaped(RunSession(inputs, repaired).s)
  {
    if |inputs| > 0 {
      hide HandleFrame;
      var n := |inputs| - 1;
      RunShaped(inputs[..n], repaired);
      if inputs[n].Frame? && RunSession(inputs[..n], repaired).s.fault.None? {
        FrameKeepsShape(RunSession(inputs[..n], repaired).s, inputs[n].f, inputs[n].accepts);
      }
    }
  }

  /** An end that is not `prepare` with nothing active, a block for the active version when its timer is
      gone or spent, a block for it with a null in it, a second valid end. */
  predicate Stops(s: Session, f: Request) {
    match f
    case PollerPrepare(_, _, _, _) => false
    case PollerPrepareBlock(_, _, v, _) => VersionApplies(s.active, v) && (s.timer.None? || s.timer == Some(Stopped))
    case PollerPrepareNullBlock(_, _, v, _) => VersionApplies(s.active, v)
    case PollerPrepareEnd(_, _, v, d) =>
      if d != DirectivePrepare then s.active.None?
      else s.active.Some? && s.timer.None? && Validates(s.active.value, v)
    case PollerCommit(_, _, _) => false
  }

  lemma ShapedFaults(s: Session, f: Request, accepts: bool)
    requires s.fault.None? && Shaped(s)
    ensures HandleFrame(s, f, accepts).next.fault.Some? <==> Stops(s, f)
  {
  }

  /** In every run, exactly these frames stop the session; reading its timer never does. */
  lemma FaultsExactly(inputs: seq<Input>, repaired: bool, f: Request, accepts: bool)
    requires RunSession(inputs, repaired).s.fault.None?
    ensures var s := RunSession(inputs, repaired).s;
            && (HandleFrame(s, f, accepts).next.fault.Some? <==> Stops(s, f))
            && (s.timer == Some(Fired) ==> HandleTimeout(s).next.fault.None?)
  {
    hide HandleFrame;
    RunShaped(inputs, repaired);
    ShapedFaults(RunSession(inputs, repaired).s, f, accepts);
  }

  function Start(version: nat): Input { Frame(PollerPrepare(version, "", version, []), true) }

  function End(version: nat): Input { Frame(PollerPrepareEnd(version, "", version, DirectivePrepare), true) }

  function Commit(version: nat): Input { Frame(PollerCommit(version, "", version), true) }

  function Block(version: nat): Input { Frame(PollerPrepareBlock(version, "", version, []), true) }

  lemma RunOne(inputs: seq<Input>, i: Input, repaired: bool)
    ensures RunSession(inputs + [i], repaired) == StepSession(RunSession(inputs, repaired), i, repaired)
  {
    assert (inputs + [i])[..|inputs|] == inputs;
  }

  /** Each kind of fault can be provoked. */
  lemma EveryFaultHappens()
    ensures exists inputs :: RunSession(inputs, false).s.fault == Some(NilMessage)
    ensures exists inputs :: RunSession(inputs, false).s.fault == Some(NilTimer)
    ensures exists inputs :: RunSession(inputs, false).s.fault == Some(NilDefinition)
    ensures exists inputs :: RunSession(inputs, false).s.fault == Some(DrainBlocks)
  {
    var abort := Frame(PollerPrepareEnd(1, "", 1, DirectiveAbort), true);
    RunOne([], abort, false);
    assert RunSession([abort], false).s.fault == Some(NilMessage) by { assert [] + [abort] == [abort]; }

    RunOne([], Start(1), false);
    assert [] + [Start(1)] == [Start(1)];
    assert DeclareAll([]) == map[] && DefineAll(map[], []) == map[];
    RunOne([Start(1)], End(1), false);
    RunOne([Start(1)] + [End(1)], Block(1), false);
    assert RunSession([Start(1)] + [End(1)] + [Block(1)], false).s.fault == Some(NilTimer);

    var nullBlock := Frame(PollerPrepareNullBlock(2, "", 1, []), true);
    RunOne([Start(1)], nullBlock, false);
    assert RunSession([Start(1)] + [nullBlock], false).s.fault == Some(NilDefinition);

    var refused := Frame(PollerPrepare(2, "", 2, []), false);
    RunOne([Start(1)], refused, false);
    RunOne([Start(1)] + [refused], Block(1), false);
    assert RunSession([Start(1)] + [refused] + [Block(1)], false).s.fault == Some(DrainBlocks);
  }

  // ---- the order of committed versions ----

  ghost predicate Increasing(handed: seq<Prep>) {
    forall i, j | 0 <= i < j < |handed| :: handed[i].version < handed[j].version
  }

  lemma CommitsOne(inputs: seq<Input>, version: nat)
    requires RunSession(inputs, false).s == NewSession && version > 0
    ensures RunSession(inputs + [Start(version)] + [End(version)] + [Commit(version)], false)
         == SessionRun(NewSession, RunSession(inputs, false).handed + [Prep("", version, map[])])
  {
    assert DeclareAll([]) == map[];
    RunOne(inputs, Start(version), false);
    RunOne(inputs + [Start(version)], End(version), false);
    RunOne(inputs + [Start(version)] + [End(version)], Commit(version), false);
  }

  /** As it is, the session commits an older version after a newer one if it is asked to. */
  lemma OrderCanRegress()
    ensures exists inputs :: RunSession(inputs, false).s.fault.None? && !Increasing(RunSession(inputs, false).handed)
  {
    var newer := [] + [Start(5)] + [End(5)] + [Commit(5)];
    var both := newer + [Start(3)] + [End(3)] + [Commit(3)];
    CommitsOne([], 5);
    CommitsOne(newer, 3);
    assert RunSession(both, false).handed[0].version == 5 && RunSession(both, false).handed[1].version == 3;
  }

  ghost predicate Above(version: int, handed: seq<Prep>) {
    forall p <- handed :: p.version < version
  }

  /** Some next frame makes the session commit out of order. */
  ghost predicate CanBreak(run: SessionRun) {
    exists f, accepts :: !Increasing(StepSession(run, Frame(f, accepts), false).handed)
  }

  /** The input is a prepare that gets past everything the session does check and becomes active. */
  ghost predicate Begins(run: SessionRun, i: Input) {
    && i.Frame? && i.f.PollerPrepare? && run.s.fault.None?
    && i.accepts && AllSupported(i.f.manifest)
    && i.f.version > run.s.newestCommitted && !IsOlder(run.s.active, i.f.version)
  }

  ghost predicate Kept(run: SessionRun) {
    Increasing(run.handed) && (run.s.active.Some? ==> Above(run.s.active.value.version, run.handed))
  }

  /** In every run whose commits are in order so far, the next frame can break the order exactly if what is active
      is not above everything handed over. */
  lemma NextBreaksIff(inputs: seq<Input>)
    requires var run := RunSession(inputs, false);
             run.s.fault.None? && Increasing(run.handed)
    ensures var run := RunSession(inputs, false);
            CanBreak(run) <==> run.s.active.Some? && !Above(run.s.active.value.version, run.handed)
  {
    var run := RunSession(inputs, false);
    hide RunSession;
    if run.s.active.Some? && !Above(run.s.active.value.version, run.handed) {
      CommitBreaks(run);
    } else {
      KeptCannotBreak(run);
    }
  }

  lemma CommitBreaks(run: SessionRun)
    requires run.s.fault.None? && run.s.active.Some? && !Above(run.s.active.value.version, run.handed)
    ensures CanBreak(run)
  {
    var commit := PollerCommit(0, "", run.s.active.value.version);
    var after := StepSession(run, Frame(commit, true), false);
    assert after.handed == run.handed + [run.s.active.value];
    var i :| 0 <= i < |run.handed| && run.handed[i].version >= run.s.active.value.version;
    assert after.handed[i].version >= after.handed[|run.handed|].version;
  }

  lemma KeptCannotBreak(run: SessionRun)
    requires Kept(run)
    ensures !CanBreak(run)
  {
    hide HandleFrame;
    forall f, accepts ensures Increasing(StepSession(run, Frame(f, accepts), false).handed) {
      if run.s.fault.None? {
        FrameHandsOrHolds(run.s, f, accepts);
        var o := HandleFrame(run.s, f, accepts);
        assert o.handed == [] ==> run.handed + o.handed == run.handed;
      }
    }
  }

  lemma GuardedStepKeeps(run: SessionRun, i: Input)
    requires Kept(run) && (Begins(run, i) ==> Above(i.f.version, run.handed))
    ensures Kept(StepSession(run, i, false))
  {
    if i.Frame? && run.s.fault.None? {
      hide HandleFrame;
      FrameHandsOrHolds(run.s, i.f, i.accepts);
      var o := HandleFrame(run.s, i.f, i.accepts);
      assert o.handed == [] ==> run.handed + o.handed == run.handed;
    }
  }

  lemma BegunBecomesActive(run: SessionRun, i: Input)
    requires Begins(run, i) && Shaped(run.s)
    ensures var after := StepSession(run, i, false);
            after.s.fault.None? && after.handed == run.handed && after.s.active.Some? && after.s.active.value.version == i.f.version
  {
  }

  /** Whether every prepare begun was, when it was read, above everything handed over. */
  ghost predicate Guarded(inputs: seq<Input>) {
    forall n | 0 <= n < |inputs| && Begins(RunSession(inputs[..n], false), inputs[n]) ::
      Above(inputs[n].f.version, RunSession(inputs[..n], false).handed)
  }

  lemma RunNext(inputs: seq<Input>, n: nat)
    requires n < |inputs|
    ensures RunSession(inputs[..n + 1], false) == StepSession(RunSession(inputs[..n], false), inputs[n], false)
  {
    assert inputs[..n + 1][..n] == inputs[..n];
  }

  lemma {:induction false} GuardedKeeps(inputs: seq<Input>, n: nat)
    requires Guarded(inputs) && n <= |inputs|
    ensures Kept(RunSession(inputs[..n], false))
  {
    hide StepSession, Begins, Kept, Above;
    if n == 0 {
      assert Kept(SessionRun(NewSession, [])) by { EmptyKept(); }
    } else {
      GuardedKeeps(inputs, n - 1);
      GuardedStepKeeps(RunSession(inputs[..n - 1], false), inputs[n - 1]);
      RunNext(inputs, n - 1);
    }
  }

  lemma EmptyKept()
    ensures Kept(SessionRun(NewSession, []))
  {
  }

  /** The code as it is commits in order, and cannot be brought out of order by a next frame, at any moment of the
      run, exactly if every prepare that began was newer than everything handed over before it was read. That
      is what comparing with the newest committed version would ensure if that were ever assigned. */
  lemma OrderKeptIff(inputs: seq<Input>)
    ensures Guarded(inputs) <==>
              forall n | 0 <= n <= |inputs| ::
                Increasing(RunSession(inputs[..n], false).handed) && !CanBreak(RunSession(inputs[..n], false))
  {
    hide RunSession, StepSession, CanBreak, Increasing, Above;
    if Guarded(inputs) {
      forall n | 0 <= n <= |inputs|
        ensures Increasing(RunSession(inputs[..n], false).handed) && !CanBreak(RunSession(inputs[..n], false))
      {
        GuardedKeeps(inputs, n);
        KeptCannotBreak(RunSession(inputs[..n], false));
      }
    } else {
      var n :| 0 <= n < |inputs| && Begins(RunSession(inputs[..n], false), inputs[n])
               && !Above(inputs[n].f.version, RunSession(inputs[..n], false).handed);
      UnguardedCanBreak(inputs, n);
    }
  }

  lemma UnguardedCanBreak(inputs: seq<Input>, n: nat)
    requires n < |inputs| && Begins(RunSession(inputs[..n], false), inputs[n])
    requires !Above(inputs[n].f.version, RunSession(inputs[..n], false).handed)
    ensures CanBreak(RunSession(inputs[..n + 1], false))
  {
    RunShaped(inputs[..n], false);
    RunNext(inputs, n);
    BegunBecomesActive(RunSession(inputs[..n], false), inputs[n]);
    hide RunSession, StepSession, CanBreak;
    CommitBreaks(RunSession(inputs[..n + 1], false));
  }

  ghost predicate Ordered(run: SessionRun) {
    && Increasing(run.handed)
    && (forall p <- run.handed :: p.version <= run.s.newestCommitted)
    && (run.s.active.Some? ==> run.s.newestCommitted < run.s.active.value.version)
  }

  lemma FrameKeepsOrder(run: SessionRun, f: Request, accepts: bool)
    requires Ordered(run) && run.s.fault.None?
    ensures Ordered(StepSession(run, Frame(f, accepts), true))
  {
    hide HandleFrame;
    FrameHandsOrHolds(run.s, f, accepts);
    var o := HandleFrame(run.s, f, accepts);
    if o.handed == [] {
      assert run.handed + o.handed == run.handed;
    }
  }

  /** Repaired, it commits in increasing order whatever it is asked. */
  lemma {:induction false} RepairedOrder(inputs: seq<Input>)
    ensures Ordered(RunSession(inputs, true))
  {
    if |inputs| > 0 {
      hide Ordered;
      var n := |inputs| - 1;
      RepairedOrder(inputs[..n]);
      var run := RunSession(inputs[..n], true);
      if inputs[n].Frame? && run.s.fault.None? {
        FrameKeepsOrder(run, inputs[n].f, inputs[n].accepts);
      } else {
        TimerKeepsOrder(run, inputs[n]);
      }
    } else {
      assert Ordered(RunSession([], true));
    }
  }

  lemma TimerKeepsOrder(run: SessionRun, i: Input)
    requires Ordered(run) && (!i.Frame? || run.s.fault.Some?)
    ensures Ordered(StepSession(run, i, true))
  {
  }

  // ---- what precedes a hand-over, and what follows a preparation that is dropped ----

  /** Among `inputs` is a prepare of `version` with known actions that the reconciler's validation accepted. */
  ghost predicate WasAccepted(inputs: seq<Input>, version: int) {
    exists i | 0 <= i < |inputs| ::
      && inputs[i].Frame? && inputs[i].f.PollerPrepare? && inputs[i].accepts
      && inputs[i].f.version == version && AllSupported(inputs[i].f.manifest)
  }

  /** Nothing is handed over, or even held, that was not accepted first. */
  lemma {:induction false} HandedWasAccepted(inputs: seq<Input>, repaired: bool)
    ensures var run := RunSession(inputs, repaired);
            && (forall p <- run.handed :: WasAccepted(inputs, p.version))
            && (run.s.active.Some? ==> WasAccepted(inputs, run.s.active.value.version))
  {
    if |inputs| > 0 {
      var n := |inputs| - 1;
      HandedWasAccepted(inputs[..n], repaired);
      var run := RunSession(inputs[..n], repaired);
      forall v | WasAccepted(inputs[..n], v) ensures WasAccepted(inputs, v) {
        var i :| 0 <= i < n && inputs[..n][i].Frame? && inputs[..n][i].f.PollerPrepare? && inputs[..n][i].accepts
                 && inputs[..n][i].f.version == v && AllSupported(inputs[..n][i].f.manifest);
        assert inputs[i] == inputs[..n][i];
      }
      if inputs[n].Frame? && run.s.fault.None? {
        FrameHandsOrHolds(run.s, inputs[n].f, inputs[n].accepts);
        assert inputs[n].f.PollerPrepare? && inputs[n].accepts && AllSupported(inputs[n].f.manifest)
               ==> WasAccepted(inputs, inputs[n].f.version);
      }
    }
  }

  /** In every run, whatever is handed over has the form that a scheduler relies on, validated or not. */
  lemma {:induction false} HandedIsWellFormed(inputs: seq<Input>, repaired: bool)
    ensures var run := RunSession(inputs, repaired);
            && (forall p <- run.handed :: Schedulers.WellFormed(p))
            && (run.s.active.Some? ==> Schedulers.WellFormed(run.s.active.value))
  {
    if |inputs| > 0 {
      hide Schedulers.WellFormed;
      var n := |inputs| - 1;
      HandedIsWellFormed(inputs[..n], repaired);
      var run := RunSession(inputs[..n], repaired);
      if inputs[n].Frame? && run.s.fault.None? {
        FrameKeepsWellFormed(run.s, inputs[n].f, inputs[n].accepts);
        FrameHandsOrHolds(run.s, inputs[n].f, inputs[n].accepts);
      }
    }
  }

  lemma FrameKeepsWellFormed(s: Session, f: Request, accepts: bool)
    requires s.active.Some? ==> Schedulers.WellFormed(s.active.value)
    ensures var next := HandleFrame(s, f, accepts).next;
            next.active.Some? ==> Schedulers.WellFormed(next.active.value)
  {
    hide Schedulers.WellFormed;
    match f
    case PollerPrepare(_, _, _, manifest) =>
      if AllSupported(manifest) {
        Schedulers.NewIsWellFormed(f.zoneId, f.version, manifest);
      }
    case PollerPrepareBlock(_, _, _, block) =>
      if s.active.Some? {
        Schedulers.AddKeepsWellFormed(s.active.value, block);
      }
    case PollerPrepareNullBlock(_, _, _, before) =>
      if s.active.Some? {
        Schedulers.AddKeepsWellFormed(s.active.value, before);
      }
    case _ =>
  }

  /** In every run, a preparation is superseded only by a newer one, and is then answered `ignored` first of all. */
  lemma SupersededIsAnswered(inputs: seq<Input>, repaired: bool, f: Request, accepts: bool)
    requires var s := RunSession(inputs, repaired).s;
             s.fault.None? && s.active.Some? && f.PollerPrepare?
    ensures var s := RunSession(inputs, repaired).s;
            var o := HandleFrame(s, f, accepts);
            && (f.version > s.active.value.version && f.version > s.newestCommitted ==>
                  && s.src.Some? && o.replies != []
                  && o.replies[0] == Result(s.src.value.id, s.active.value.zoneId, s.active.value.version, Ignored))
            && (f.version < s.active.value.version ==> o.next == s && o.replies == [Result(f.id, f.zoneId, f.version, Ignored)])
  {
    RunShaped(inputs, repaired);
  }

  /** In every run, the message that started the active preparation is given up without an answer and without a
      commit exactly when another prepare of the same version takes its place. */
  lemma DroppedSilentlyIff(inputs: seq<Input>, repaired: bool, f: Request, accepts: bool)
    requires var s := RunSession(inputs, repaired).s;
             s.fault.None? && s.active.Some? && HandleFrame(s, f, accepts).next.src != s.src
    ensures var s := RunSession(inputs, repaired).s;
            var o := HandleFrame(s, f, accepts);
            && s.src.Some?
            && ((o.handed == [] && !exists r <- o.replies :: r.Result? && r.id == s.src.value.id && r.status != Prepared)
                <==> f.PollerPrepare? && f.version == s.active.value.version)
  {
    RunShaped(inputs, repaired);
    var o := HandleFrame(RunSession(inputs, repaired).s, f, accepts);
    hide RunSession;
    if o.replies != [] {
      assert o.replies[0] in o.replies;
    }
  }

  // ---- the two phases, without an agent at the other end ----

  /** In every run, a preparation whose timer is gone has passed validation and has not changed since. */
  lemma {:induction false} SettledIsValid(inputs: seq<Input>, repaired: bool)
    ensures var s := RunSession(inputs, repaired).s;
            s.fault.None? ==> Settled(s)
  {
    if |inputs| > 0 {
      hide HandleFrame, Validates, Settled;
      var n := |inputs| - 1;
      SettledIsValid(inputs[..n], repaired);
      var run := RunSession(inputs[..n], repaired);
      if inputs[n].Frame? && run.s.fault.None? {
        FrameKeepsSettled(run.s, inputs[n].f, inputs[n].accepts);
      } else {
        TimerKeepsSettled(run, inputs[n], repaired);
      }
    } else {
      assert Settled(NewSession);
    }
  }

  predicate Settled(s: Session) {
    s.active.Some? && s.timer.None? ==> s.prepared && Validates(s.active.value, s.active.value.version)
  }

  lemma FrameKeepsSettled(s: Session, f: Request, accepts: bool)
    requires Settled(s) && s.fault.None?
    ensures var o := HandleFrame(s, f, accepts);
            o.next.fault.None? ==> Settled(o.next) && forall v :: Settled(o.next.(newestCommitted := v))
  {
    hide DefineAll, DeclareAll, AllSupported;
  }

  lemma TimerKeepsSettled(run: SessionRun, i: Input, repaired: bool)
    requires (run.s.fault.None? ==> Settled(run.s)) && (!i.Frame? || run.s.fault.Some?)
    ensures var s := StepSession(run, i, repaired).s;
            s.fault.None? ==> Settled(s)
  {
    hide Validates;
  }

  /** In every run, exactly these commits hand over a preparation that does not validate: of the active version,
      while its prepare-to-end timer is there and the definitions are not complete. The `prepared` flag does
      not come into it. */
  lemma InvalidHandOverIff(inputs: seq<Input>, repaired: bool, f: Request, accepts: bool)
    requires RunSession(inputs, repaired).s.fault.None?
    ensures var s := RunSession(inputs, repaired).s;
            (exists p <- HandleFrame(s, f, accepts).handed :: !Validates(p, p.version))
            <==> f.PollerCommit? && VersionApplies(s.active, f.version) && s.timer.Some? && !Validates(s.active.value, f.version)
  {
    SettledIsValid(inputs, repaired);
    var s := RunSession(inputs, repaired).s;
    hide RunSession, Validates;
    FrameHandsOrHolds(s, f, accepts);
    if f.PollerCommit? && VersionApplies(s.active, f.version) {
      assert HandleFrame(s, f, accepts).handed == [s.active.value];
    }
  }

  /** It happens, even with the flag set: that stays when a newer preparation takes the place of a prepared one. */
  lemma FlagOutlivesItsPreparation()
    ensures exists inputs, f ::
              var s := RunSession(inputs, false).s;
              && s.fault.None? && s.prepared
              && exists p <- HandleFrame(s, f, true).handed :: !Validates(p, p.version)
  {
    var entry := ManifestEntry(Action.Start, "a", "remote.tcp", "", "");
    var incomplete := Frame(PollerPrepare(4, "", 2, [entry]), true);
    var inputs := [Start(1)] + [End(1)] + [incomplete];
    assert [] + [Start(1)] == [Start(1)] && DeclareAll([]) == map[];
    RunOne([], Start(1), false);
    RunOne([Start(1)], End(1), false);
    RunOne([Start(1)] + [End(1)], incomplete, false);
    var s := RunSession(inputs, false).s;
    assert [entry][..0] == [] && "a" in DeclareAll([entry]) && !DeclareAll([entry])["a"].populated;
    assert s.fault.None? && s.prepared && !Validates(s.active.value, 2);
    assert HandleFrame(s, PollerCommit(5, "", 2), true).handed == [s.active.value];
  }
}
