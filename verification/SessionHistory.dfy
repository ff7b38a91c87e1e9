/** What a session holds, told from the requests it read and the replies it gave alone, and what it answers. */
module SessionHistory {
  import opened Protocol
  import opened ChecksPreparations
  import opened Sessions
  import opened SessionTraffic

  /** A request read or a tick of the timer read, each with the replies to it. */
  datatype Entry = Got(f: Request, replies: seq<Response>) | Tick(replies: seq<Response>)

  function EntriesOf(s: Session, i: Input): seq<Entry> {
    if s.fault.Some? then []
    else
      match i
      case Frame(f, accepts) => [Got(f, HandleFrame(s, f, accepts).replies)]
      case Fire => []
      case ReadTimer => if s.timer == Some(Fired) then [Tick(HandleTimeout(s).replies)] else []
  }

  function Log(inputs: seq<Input>): seq<Entry> {
    if |inputs| == 0 then []
    else
      var n := |inputs| - 1;
      Log(inputs[..n]) + EntriesOf(RunSession(inputs[..n], false).s, inputs[n])
  }

  /** A preparation under way: its prepare, the blocks since, and whether it was answered `prepared`. */
  datatype UnderWay = UnderWay(src: Request, blocks: seq<seq<CheckIn>>, answered: bool)

  predicate SaysPrepared(r: Response) { r.Result? && r.status == Prepared }

  predicate TurnedDown(f: Request, replies: seq<Response>) {
    && replies != []
    && replies[|replies| - 1] in {Result(f.id, f.zoneId, f.version, Failed), Result(f.id, f.zoneId, f.version, Ignored)}
  }

  predicate Concerns(u: Option<UnderWay>, f: Request) { u.Some? && u.value.src.version == f.version }

  /** A prepare that is not turned down begins one; an abort, a commit of its version and a tick end it. */
  function After(u: Option<UnderWay>, e: Entry): Option<UnderWay> {
    match e
    case Tick(_) => None
    case Got(f, replies) =>
      match f
      case PollerPrepare(_, _, _, _) => if TurnedDown(f, replies) then u else Some(UnderWay(f, [], false))
      case PollerPrepareBlock(_, _, _, block) =>
        if Concerns(u, f) then Some(u.value.(blocks := u.value.blocks + [block])) else u
      case PollerPrepareNullBlock(_, _, _, _) => u
      case PollerPrepareEnd(_, _, _, directive) =>
        if directive == DirectiveAbort then None
        else if u.Some? && exists r <- replies :: SaysPrepared(r) then Some(u.value.(answered := true))
        else u
      case PollerCommit(_, _, _) => if Concerns(u, f) then None else u
  }

  function Current(log: seq<Entry>): Option<UnderWay> {
    if |log| == 0 then None else After(Current(log[..|log| - 1]), log[|log| - 1])
  }

  function AssembledFrom(src: Request, blocks: seq<seq<CheckIn>>): Prep
    requires src.PollerPrepare? && AllSupported(src.manifest)
  {
    Received(NewPreparation(src.zoneId, src.version, src.manifest).value, blocks)
  }

  /** The session holds exactly what is under way: its message, what arrived, and a timer until the end is answered. */
  ghost predicate Holds(s: Session, u: Option<UnderWay>) {
    && s.newestCommitted == 0
    && (u.None? ==> s == NewSession)
    && (u.Some? ==>
          && u.value.src.PollerPrepare? && AllSupported(u.value.src.manifest)
          && s.src == Some(u.value.src)
          && s.active == Some(AssembledFrom(u.value.src, u.value.blocks))
          && (s.timer.None? <==> u.value.answered))
  }

  lemma AssembledMore(src: Request, blocks: seq<seq<CheckIn>>, block: seq<CheckIn>)
    requires src.PollerPrepare? && AllSupported(src.manifest)
    ensures AssembledFrom(src, blocks + [block]) == AddDefinitions(AssembledFrom(src, blocks), block)
    ensures AssembledFrom(src, []) == NewPreparation(src.zoneId, src.version, src.manifest).value
  {
    assert (blocks + [block])[..|blocks|] == blocks;
  }

  lemma {:induction false} AssembledHeader(src: Request, blocks: seq<seq<CheckIn>>)
    requires src.PollerPrepare? && AllSupported(src.manifest)
    ensures AssembledFrom(src, blocks).version == src.version && AssembledFrom(src, blocks).zoneId == src.zoneId
  {
    if |blocks| > 0 {
      AssembledHeader(src, blocks[..|blocks| - 1]);
    }
  }

  // ---- what each request is answered, and what it leaves ----

  /** A prepare. Not newer than what was committed, or older than what is under way: ignored. Else the source of an
      older one under way is told that it is superseded; then, turned down, it is answered `failed` and what is under
      way stays, though its timer is stopped; accepted, it is not answered and takes the place. */
  lemma AnswerToPrepare(s: Session, u: Option<UnderWay>, f: Request, accepts: bool)
    requires s.fault.None? && Holds(s, u) && f.PollerPrepare?
    ensures var o := HandleFrame(s, f, accepts);
            var superseded := if u.Some? && f.version > u.value.src.version
                              then [Result(u.value.src.id, u.value.src.zoneId, u.value.src.version, Ignored)] else [];
            && o.handed == []
            && if f.version <= 0 || (u.Some? && f.version < u.value.src.version) then
                 o.replies == [Result(f.id, f.zoneId, f.version, Ignored)] && o.next == s
               else if accepts && AllSupported(f.manifest) then
                 && o.replies == superseded
                 && o.next == s.(active := NewPreparation(f.zoneId, f.version, f.manifest), src := Some(f), timer := Some(Running))
               else
                 && o.replies == superseded + [Result(f.id, f.zoneId, f.version, Failed)]
                 && o.next == if superseded != [] && s.timer == Some(Running) then s.(timer := Some(Stopped)) else s
  {
    hide Received;
    if u.Some? {
      AssembledHeader(u.value.src, u.value.blocks);
    }
  }

  /** A block, never answered: added to what is under way if it is for its version, and the timer starts anew. */
  lemma AnswerToBlock(s: Session, u: Option<UnderWay>, f: Request, accepts: bool)
    requires s.fault.None? && Holds(s, u) && f.PollerPrepareBlock?
    ensures var o := HandleFrame(s, f, accepts);
            && o.replies == [] && o.handed == []
            && (!Concerns(u, f) ==> o.next == s)
            && (Concerns(u, f) && o.next.fault.None? ==>
                  o.next == s.(active := Some(AssembledFrom(u.value.src, u.value.blocks + [f.block])), timer := Some(Running)))
  {
    if u.Some? {
      AssembledHeader(u.value.src, u.value.blocks);
      AssembledMore(u.value.src, u.value.blocks, f.block);
    }
    hide Received;
  }

  /** An abort ends what is under way and nothing is left of it. Another end that does not succeed is answered `failed`
      and changes nothing. */
  lemma AnswerToEnd(s: Session, u: Option<UnderWay>, f: Request, accepts: bool)
    requires s.fault.None? && Holds(s, u) && f.PollerPrepareEnd?
    ensures var o := HandleFrame(s, f, accepts);
            && o.handed == []
            && (o.next.fault.None? && u.None? ==>
                  f.directive == DirectivePrepare && o.replies == [Result(f.id, f.zoneId, f.version, Failed)] && o.next == s)
            && (o.next.fault.None? && u.Some? ==>
                  if f.directive == DirectiveAbort then
                    o.replies == [Result(u.value.src.id, f.zoneId, f.version, Aborted)] && o.next == NewSession
                  else if f.directive == DirectivePrepare && Validates(AssembledFrom(u.value.src, u.value.blocks), f.version) then
                    && o.replies == [Result(u.value.src.id, u.value.src.zoneId, f.version, Prepared)]
                    && o.next == s.(prepared := true, timer := None)
                  else
                    o.replies == [Result(u.value.src.id, f.zoneId, f.version, Failed)] && o.next == s)
  {
    if u.Some? {
      AssembledHeader(u.value.src, u.value.blocks);
    }
    hide Received;
  }

  /** A commit of the version under way is answered `committed`, hands over all that arrived, and leaves nothing;
      any other is ignored. */
  lemma AnswerToCommit(s: Session, u: Option<UnderWay>, f: Request, accepts: bool)
    requires s.fault.None? && Holds(s, u) && f.PollerCommit?
    ensures HandleFrame(s, f, accepts) ==
              if Concerns(u, f)
              then Outcome(NewSession, [Result(f.id, f.zoneId, f.version, Committed)], [AssembledFrom(u.value.src, u.value.blocks)])
              else Outcome(s, [Result(f.id, f.zoneId, f.version, Ignored)], [])
  {
    if u.Some? {
      AssembledHeader(u.value.src, u.value.blocks);
    }
    hide Received;
  }

  /** A time-out fails what is under way, and leaves nothing. */
  lemma AnswerToTick(s: Session, u: Option<UnderWay>)
    requires s.fault.None? && Holds(s, u) && s.timer == Some(Fired)
    ensures u.Some? && HandleTimeout(s)
         == Outcome(NewSession, [Result(u.value.src.id, u.value.src.zoneId, u.value.src.version, Failed)], [])
  {
    if u.Some? {
      AssembledHeader(u.value.src, u.value.blocks);
    }
    hide Received;
  }

  // ---- runs ----

  lemma FrameFollows(s: Session, u: Option<UnderWay>, f: Request, accepts: bool)
    requires s.fault.None? && Holds(s, u)
    ensures var o := HandleFrame(s, f, accepts);
            o.next.fault.None? ==> Holds(o.next, After(u, Got(f, o.replies)))
  {
    match f
    case PollerPrepare(_, _, _, _) =>
      AnswerToPrepare(s, u, f, accepts);
      if AllSupported(f.manifest) {
        AssembledMore(f, [], []);
      }
      hide HandleFrame, AssembledFrom;
    case PollerPrepareBlock(_, _, _, _) =>
      AnswerToBlock(s, u, f, accepts);
      hide HandleFrame, AssembledFrom;
    case PollerPrepareNullBlock(_, _, _, _) =>
      if u.Some? {
        AssembledHeader(u.value.src, u.value.blocks);
      }
    case PollerPrepareEnd(_, _, _, _) =>
      AnswerToEnd(s, u, f, accepts);
      if HandleFrame(s, f, accepts).next.fault.None? {
        var replies := HandleFrame(s, f, accepts).replies;
        hide HandleFrame, AssembledFrom;
        assert |replies| == 1 && replies[0] in replies;
        assert (exists r <- replies :: SaysPrepared(r)) <==> SaysPrepared(replies[0]);
      }
    case PollerCommit(_, _, _) =>
      AnswerToCommit(s, u, f, accepts);
      hide HandleFrame, AssembledFrom;
  }

  /** In every run without a fault, the session holds what the requests and replies say is under way. */
  lemma {:induction false} SessionFollowsLog(inputs: seq<Input>)
    ensures var s := RunSession(inputs, false).s;
            s.fault.None? ==> Holds(s, Current(Log(inputs)))
  {
    if |inputs| > 0 {
      hide HandleFrame, Holds, After;
      var n := |inputs| - 1;
      SessionFollowsLog(inputs[..n]);
      var s, i := RunSession(inputs[..n], false).s, inputs[n];
      var log := Log(inputs[..n]);
      OneEntry(log, EntriesOf(s, i));
      if s.fault.None? {
        match i
        case Frame(f, accepts) => FrameFollows(s, Current(log), f, accepts);
        case _ => TimerFollows(s, Current(log), i);
      }
    } else {
      assert Holds(NewSession, None);
    }
  }

  lemma OneEntry(log: seq<Entry>, entries: seq<Entry>)
    requires |entries| <= 1
    ensures Current(log + entries) == if entries == [] then Current(log) else After(Current(log), entries[0])
  {
    if entries == [] {
      assert log + entries == log;
    } else {
      assert (log + entries)[..|log|] == log;
    }
  }

  lemma TimerFollows(s: Session, u: Option<UnderWay>, i: Input)
    requires s.fault.None? && Holds(s, u) && !i.Frame?
    ensures var next := StepSession(SessionRun(s, []), i, false).s;
            var entries := EntriesOf(s, i);
            next.fault.None? ==> Holds(next, if entries == [] then u else After(u, entries[0]))
  {
    if s.timer == Some(Fired) {
      AnswerToTick(s, u);
    }
  }

  /** In every run, `prepared` is answered exactly to a `prepare` end for the version under way when all that arrived
      for it validates and it was not answered before; once, and to its source. */
  lemma PreparedIff(inputs: seq<Input>, f: Request, accepts: bool)
    requires RunSession(inputs, false).s.fault.None?
    ensures var u, o := Current(Log(inputs)), HandleFrame(RunSession(inputs, false).s, f, accepts);
            && ((exists r <- o.replies :: SaysPrepared(r)) <==>
                 && f.PollerPrepareEnd? && f.directive == DirectivePrepare && u.Some? && !u.value.answered
                 && u.value.src.PollerPrepare? && AllSupported(u.value.src.manifest)
                 && Validates(AssembledFrom(u.value.src, u.value.blocks), f.version))
            && ((exists r <- o.replies :: SaysPrepared(r)) ==>
                  o.replies == [Result(u.value.src.id, u.value.src.zoneId, f.version, Prepared)])
  {
    SessionFollowsLog(inputs);
    var s, u := RunSession(inputs, false).s, Current(Log(inputs));
    hide RunSession, Log, Current;
    PreparedAnswer(s, u, f, accepts);
  }

  lemma PreparedAnswer(s: Session, u: Option<UnderWay>, f: Request, accepts: bool)
    requires s.fault.None? && Holds(s, u)
    ensures var o := HandleFrame(s, f, accepts);
            && ((exists r <- o.replies :: SaysPrepared(r)) <==>
                 && f.PollerPrepareEnd? && f.directive == DirectivePrepare && u.Some? && !u.value.answered
                 && Validates(AssembledFrom(u.value.src, u.value.blocks), f.version))
            && ((exists r <- o.replies :: SaysPrepared(r)) ==>
                  o.replies == [Result(u.value.src.id, u.value.src.zoneId, f.version, Prepared)])
  {
    if u.Some? {
      AssembledHeader(u.value.src, u.value.blocks);
    }
    var replies := HandleFrame(s, f, accepts).replies;
    hide AssembledFrom, Received;
    assert replies != [] ==> replies[0] in replies;
  }

  /** In every run, each prepare is answered, and leaves the session, as it should. */
  lemma PrepareIsAnswered(inputs: seq<Input>, f: Request, accepts: bool)
    requires f.PollerPrepare? && RunSession(inputs, false).s.fault.None?
    ensures var s, u := RunSession(inputs, false).s, Current(Log(inputs));
            var o := HandleFrame(s, f, accepts);
            if f.version <= 0 || (u.Some? && f.version < u.value.src.version) then
              o.replies == [Result(f.id, f.zoneId, f.version, Ignored)] && o.next == s
            else if accepts && AllSupported(f.manifest) then
              o.next.src == Some(f) && o.next.active == NewPreparation(f.zoneId, f.version, f.manifest) && o.next.timer == Some(Running)
            else
              && o.replies != [] && o.replies[|o.replies| - 1] == Result(f.id, f.zoneId, f.version, Failed)
              && o.next.src == s.src && o.next.active == s.active
  {
    SessionFollowsLog(inputs);
    AnswerToPrepare(RunSession(inputs, false).s, Current(Log(inputs)), f, accepts);
  }

  /** In every run, a tick that can be read fails what is under way, towards its source, and nothing is left. */
  lemma TimeoutIsAnswered(inputs: seq<Input>)
    requires RunSession(inputs, false).s.fault.None? && RunSession(inputs, false).s.timer == Some(Fired)
    ensures var u := Current(Log(inputs));
            && u.Some?
            && HandleTimeout(RunSession(inputs, false).s)
               == Outcome(NewSession, [Result(u.value.src.id, u.value.src.zoneId, u.value.src.version, Failed)], [])
  {
    SessionFollowsLog(inputs);
    AnswerToTick(RunSession(inputs, false).s, Current(Log(inputs)));
  }

  /** In every run, each commit is answered once, and hands over all that arrived for its version or nothing. */
  lemma CommitIsAnswered(inputs: seq<Input>, f: Request, accepts: bool)
    requires f.PollerCommit? && RunSession(inputs, false).s.fault.None?
    ensures var s, u := RunSession(inputs, false).s, Current(Log(inputs));
            HandleFrame(s, f, accepts) ==
              if Concerns(u, f) && u.value.src.PollerPrepare? && AllSupported(u.value.src.manifest)
              then Outcome(NewSession, [Result(f.id, f.zoneId, f.version, Committed)], [AssembledFrom(u.value.src, u.value.blocks)])
              else Outcome(s, [Result(f.id, f.zoneId, f.version, Ignored)], [])
  {
    SessionFollowsLog(inputs);
    var s := RunSession(inputs, false).s;
    hide RunSession;
    AnswerToCommit(s, Current(Log(inputs)), f, accepts);
  }

  /** In every run, nothing at all is left after an abort, which is answered once, to the source. */
  lemma AbortLeavesNothing(inputs: seq<Input>, f: Request, accepts: bool)
    requires RunSession(inputs, false).s.fault.None? && f.PollerPrepareEnd? && f.directive == DirectiveAbort
    ensures var u, o := Current(Log(inputs)), HandleFrame(RunSession(inputs, false).s, f, accepts);
            o.next.fault.None? ==>
              && u.Some? && o.replies == [Result(u.value.src.id, f.zoneId, f.version, Aborted)]
              && o.handed == [] && o.next == NewSession
  {
    SessionFollowsLog(inputs);
    var s := RunSession(inputs, false).s;
    hide RunSession;
    AnswerToEnd(s, Current(Log(inputs)), f, accepts);
  }

  /** In every run, an end that neither aborts nor succeeds leaves preparation, message, flag and timer alone. */
  lemma FailedEndChangesNothing(inputs: seq<Input>, f: Request, accepts: bool)
    requires RunSession(inputs, false).s.fault.None? && f.PollerPrepareEnd? && f.directive != DirectiveAbort
    ensures var s := RunSession(inputs, false).s;
            var o := HandleFrame(s, f, accepts);
            o.next.fault.None? && !(exists r <- o.replies :: SaysPrepared(r)) ==>
              o.next == s && |o.replies| == 1 && o.replies[0].Result? && o.replies[0].status == Failed
  {
    SessionFollowsLog(inputs);
    var s := RunSession(inputs, false).s;
    hide RunSession;
    AnswerToEnd(s, Current(Log(inputs)), f, accepts);
    var replies := HandleFrame(s, f, accepts).replies;
    assert replies != [] ==> replies[0] in replies;
  }

  predicate AcceptedPrepare(i: Input) { i.Frame? && i.f.PollerPrepare? && i.accepts }

  /** In every run, when nothing is under way, as after an abort, a time-out or a commit, nothing is handed over
      before another prepare is accepted. */
  lemma {:induction false} NothingWithoutPrepare(inputs: seq<Input>, more: seq<Input>)
    requires RunSession(inputs, false).s.fault.None? && Current(Log(inputs)).None?
    requires forall i <- more :: !AcceptedPrepare(i)
    ensures RunSession(inputs + more, false).handed == RunSession(inputs, false).handed
    ensures RunSession(inputs + more, false).s.active.None?
  {
    if |more| == 0 {
      assert inputs + more == inputs;
      SessionFollowsLog(inputs);
    } else {
      var n := |more| - 1;
      NothingWithoutPrepare(inputs, more[..n]);
      assert (inputs + more)[..|inputs + more| - 1] == inputs + more[..n] && (inputs + more)[|inputs + more| - 1] == more[n];
      var run := RunSession(inputs + more[..n], false);
      assert !AcceptedPrepare(more[n]);
      if more[n].Frame? && run.s.fault.None? {
        hide HandleFrame;
        FrameHandsOrHolds(run.s, more[n].f, more[n].accepts);
      }
    }
  }
}
