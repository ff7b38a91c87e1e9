/** The poller's side of a preparation: one active preparation, its timer, supersession and commit. */
module Sessions {
  import opened Protocol
  import opened ChecksPreparations

  /** A one-shot timer: running; fired with its tick unread; or neither (stopped, or tick read). */
  datatype Timer = Running | Fired | Stopped

  /** Ways in which the frame handling goroutine can stop making progress. */
  datatype Fault = NilMessage | NilTimer | NilDefinition | DrainBlocks

  /** `newestCommitted` is compared with every prepare but never assigned after construction. */
  datatype Session = Session(
    newestCommitted: int,
    active: Option<Prep>,
    src: Option<Request>,
    prepared: bool,
    timer: Option<Timer>,
    fault: Option<Fault>)

  const NewSession := Session(0, None, None, false, None, None)

  /** What one step of the session does: next state, replies sent, preparations given to the reconciler. */
  datatype Outcome = Outcome(next: Session, replies: seq<Response>, handed: seq<Prep>)

  function Quiet(s: Session): Outcome { Outcome(s, [], []) }

  function Crash(s: Session, f: Fault): Outcome { Outcome(s.(fault := Some(f)), [], []) }

  function Clear(s: Session): Session {
    s.(active := None, src := None, prepared := false, timer := None)
  }

  /** A reply to the message that started the active preparation; there has to be one. */
  function ReplyToSource(s: Session, next: Session, zoneId: string, version: int, status: Status): Outcome {
    if s.src.None? then Crash(s, NilMessage)
    else Outcome(next, [Result(s.src.value.id, zoneId, version, status)], [])
  }

  function StopTimer(t: Option<Timer>): Option<Timer> {
    if t == Some(Running) then Some(Stopped) else t
  }

  /** `accepts` is the verdict of the reconciler's own validation. */
  function HandlePrepare(s: Session, f: Request, accepts: bool): Outcome
    requires f.PollerPrepare?
  {
    if f.version <= s.newestCommitted || IsOlder(s.active, f.version) then
      Outcome(s, [Result(f.id, f.zoneId, f.version, Ignored)], [])
    else if s.active.Some? && IsNewer(s.active, f.version) then
      var prior := s.active.value;
      var o := ReplyToSource(s, s.(timer := StopTimer(s.timer)), prior.zoneId, prior.version, Ignored);
      if o.next.fault.Some? then o else Begin(o.next, o.replies, f, accepts)
    else
      Begin(s, [], f, accepts)
  }

  function Begin(s: Session, replies: seq<Response>, f: Request, accepts: bool): Outcome
    requires f.PollerPrepare?
  {
    var cp := NewPreparation(f.zoneId, f.version, f.manifest);
    if cp.None? || !accepts then
      Outcome(s, replies + [Result(f.id, f.zoneId, f.version, Failed)], [])
    else
      Outcome(s.(active := cp, src := Some(f), timer := Some(Running)), replies, [])
  }

  function HandleBlock(s: Session, f: Request): Outcome
    requires f.PollerPrepareBlock?
  {
    if !VersionApplies(s.active, f.version) then Quiet(s)
    else
      var s1 := s.(active := Some(AddDefinitions(s.active.value, f.block)));
      match s.timer
      case None => Crash(s1, NilTimer)
      case Some(Stopped) => Crash(s1, DrainBlocks)
      case Some(_) => Quiet(s1.(timer := Some(Running)))
  }

  function HandleNullBlock(s: Session, f: Request): Outcome
    requires f.PollerPrepareNullBlock?
  {
    if !VersionApplies(s.active, f.version) then Quiet(s)
    else Crash(s.(active := Some(AddDefinitions(s.active.value, f.before))), NilDefinition)
  }

  function HandleEnd(s: Session, f: Request): Outcome
    requires f.PollerPrepareEnd?
  {
    if f.directive == DirectiveAbort then
      ReplyToSource(s, Clear(s), f.zoneId, f.version, Aborted)
    else if f.directive != DirectivePrepare then
      ReplyToSource(s, s, f.zoneId, f.version, Failed)
    else if s.active.None? then
      Outcome(s, [Result(f.id, f.zoneId, f.version, Failed)], [])
    else if !Validates(s.active.value, f.version) then
      ReplyToSource(s, s, f.zoneId, f.version, Failed)
    else if s.timer.None? then
      Crash(s.(prepared := true), NilTimer)
    else
      var s1 := s.(prepared := true, timer := None);
      ReplyToSource(s1, s1, s.active.value.zoneId, f.version, Prepared)
  }

  function HandleCommit(s: Session, f: Request): Outcome
    requires f.PollerCommit?
  {
    if !VersionApplies(s.active, f.version) then
      Outcome(s, [Result(f.id, f.zoneId, f.version, Ignored)], [])
    else
      Outcome(Clear(s), [Result(f.id, f.zoneId, f.version, Committed)], [s.active.value])
  }

  function HandleFrame(s: Session, f: Request, accepts: bool): Outcome {
    match f
    case PollerPrepare(_, _, _, _) => HandlePrepare(s, f, accepts)
    case PollerPrepareBlock(_, _, _, _) => HandleBlock(s, f)
    case PollerPrepareNullBlock(_, _, _, _) => HandleNullBlock(s, f)
    case PollerPrepareEnd(_, _, _, _) => HandleEnd(s, f)
    case PollerCommit(_, _, _) => HandleCommit(s, f)
  }

  /** The branch taken when the tick of the prepare-to-end timer is read. */
  function HandleTimeout(s: Session): Outcome
    requires s.timer == Some(Fired)
  {
    var s1 := s.(timer := None);
    if s.src.None? || s.active.None? then Crash(s1, NilMessage)
    else ReplyToSource(s1, Clear(s1), s.active.value.zoneId, s.active.value.version, Failed)
  }

  /** Only the active preparation is ever handed over, and what is active afterwards was active before or
      is what an accepted prepare asked for. */
  lemma FrameHandsOrHolds(s: Session, f: Request, accepts: bool)
    ensures var o := HandleFrame(s, f, accepts);
            && o.next.newestCommitted == s.newestCommitted
            && (o.handed != [] ==>
                  && f.PollerCommit? && VersionApplies(s.active, f.version)
                  && o.handed == [s.active.value] && o.next.active.None?)
            && (o.next.active.Some? ==>
                  || (s.active.Some? && o.next.active.value.version == s.active.value.version)
                  || (f.PollerPrepare? && accepts && AllSupported(f.manifest)
                      && o.next.active.value.version == f.version
                      && f.version > s.newestCommitted && !IsOlder(s.active, f.version)))
  {
  }

  // ---- the session object ----

  class EleSession {
    var newestCommittedVersion: int
    var activePrep: ChecksPreparation?
    var srcPrepMsg: Option<Request>
    var prepared: bool
    var prepareToEndTimer: Option<Timer>
    var fault: Option<Fault>
    /** Replies staged for sending, and preparations given to the reconciler, in order. */
    var sendCh: seq<Response>
    var reconciled: seq<ChecksPreparation>

    /** A preparation that was handed over is no longer the session's to change. */
    ghost predicate Valid()
      reads this
    {
      activePrep == null || activePrep !in reconciled
    }

    ghost function View(): Session
      reads this, activePrep
    {
      Session(newestCommittedVersion, if activePrep == null then None else Some(activePrep.View()),
              srcPrepMsg, prepared, prepareToEndTimer, fault)
    }

    /** The step from `s` to the current state was `o`; nothing already handed over was touched. */
    twostate predicate Did(o: Outcome)
      reads this, activePrep, reconciled
    {
      && Valid()
      && View() == o.next
      && sendCh == old(sendCh) + o.replies
      && |reconciled| == |old(reconciled)| + |o.handed|
      && reconciled[..|old(reconciled)|] == old(reconciled)
      && (forall cp <- old(reconciled) :: unchanged(cp))
      && (forall i | 0 <= i < |o.handed| :: reconciled[|old(reconciled)| + i].View() == o.handed[i])
    }

    constructor ()
      ensures Valid() && View() == NewSession
      ensures sendCh == [] && reconciled == [] && activePrep == null
    {
      newestCommittedVersion := 0;
      activePrep, srcPrepMsg, prepared, prepareToEndTimer, fault := null, None, false, None, None;
      sendCh, reconciled := [], [];
    }

    method Respond(r: Response)
      modifies this`sendCh
      ensures sendCh == old(sendCh) + [r]
    {
      sendCh := sendCh + [r];
    }

    method RespondToSource(zoneId: string, version: int, status: Status)
      modifies this`sendCh, this`fault
      ensures srcPrepMsg.None? ==> fault == Some(NilMessage) && sendCh == old(sendCh)
      ensures srcPrepMsg.Some? ==>
                fault == old(fault) && sendCh == old(sendCh) + [Result(srcPrepMsg.value.id, zoneId, version, status)]
    {
      if srcPrepMsg.None? {
        fault := Some(NilMessage);
      } else {
        Respond(Result(srcPrepMsg.value.id, zoneId, version, status));
      }
    }

    method ClearDetails()
      modifies this`activePrep, this`srcPrepMsg, this`prepared, this`prepareToEndTimer
      ensures Valid() && View() == Clear(old(View())) && activePrep == null
    {
      activePrep, srcPrepMsg, prepared := null, None, false;
      if prepareToEndTimer.Some? {
        prepareToEndTimer := StopTimer(prepareToEndTimer);
        prepareToEndTimer := None;
      }
    }

    method HandlePollerPrepare(f: Request, accepts: bool)
      requires Valid() && f.PollerPrepare? && fault.None?
      modifies this
      ensures Did(HandlePrepare(old(View()), f, accepts))
    {
      if f.version <= newestCommittedVersion {
        Respond(Result(f.id, f.zoneId, f.version, Ignored));
        return;
      }
      if activePrep != null && f.version < activePrep.version {
        Respond(Result(f.id, f.zoneId, f.version, Ignored));
        return;
      }
      if activePrep != null && f.version > activePrep.version {
        RespondToSource(activePrep.zoneId, activePrep.version, Ignored);
        if fault.Some? {
          return;
        }
        if prepareToEndTimer.Some? {
          prepareToEndTimer := StopTimer(prepareToEndTimer);
        }
      }
      BeginPreparation(f, accepts);
    }

    method BeginPreparation(f: Request, accepts: bool)
      requires Valid() && f.PollerPrepare? && fault.None?
      modifies this
      ensures Did(Begin(old(View()), [], f, accepts))
    {
      var cp := ChecksPreparation.NewChecksPreparation(f.zoneId, f.version, f.manifest);
      if cp == null {
        Respond(Result(f.id, f.zoneId, f.version, Failed));
        return;
      }
      if !accepts {
        Respond(Result(f.id, f.zoneId, f.version, Failed));
        return;
      }
      prepareToEndTimer := Some(Running);
      srcPrepMsg := Some(f);
      activePrep := cp;
    }

    method HandlePollerPrepareBlock(f: Request)
      requires Valid() && f.PollerPrepareBlock? && fault.None?
      modifies this, activePrep
      ensures Did(HandleBlock(old(View()), f))
    {
      if activePrep == null || activePrep.version != f.version {
        return;
      }
      activePrep.AddDefinitionBlock(f.block);
      match prepareToEndTimer
      case None => fault := Some(NilTimer);
      case Some(Stopped) => fault := Some(DrainBlocks);
      case Some(_) => prepareToEndTimer := Some(Running);
    }

    /** The part of the same handler that ends at the null. */
    method HandlePollerPrepareNullBlock(f: Request)
      requires Valid() && f.PollerPrepareNullBlock? && fault.None?
      modifies this, activePrep
      ensures Did(HandleNullBlock(old(View()), f))
    {
      if activePrep == null || activePrep.version != f.version {
        return;
      }
      activePrep.AddDefinitionBlock(f.before);
      fault := Some(NilDefinition);
    }

    method HandlePollerPrepareEnd(f: Request)
      requires Valid() && f.PollerPrepareEnd? && fault.None?
      modifies this
      ensures Did(HandleEnd(old(View()), f))
    {
      if f.directive == DirectiveAbort {
        RespondToSource(f.zoneId, f.version, Aborted);
        if fault.None? {
          ClearDetails();
        }
        return;
      }
      if f.directive != DirectivePrepare {
        RespondToSource(f.zoneId, f.version, Failed);
        return;
      }
      if activePrep == null {
        Respond(Result(f.id, f.zoneId, f.version, Failed));
        return;
      }
      var err := activePrep.Validate(f.version);
      if err.Some? {
        RespondToSource(f.zoneId, f.version, Failed);
        return;
      }
      prepared := true;
      if prepareToEndTimer.None? {
        fault := Some(NilTimer);
        return;
      }
      prepareToEndTimer := None;
      RespondToSource(activePrep.zoneId, f.version, Prepared);
    }

    method HandlePollerCommit(f: Request)
      requires Valid() && f.PollerCommit?
      modifies this
      ensures Did(HandleCommit(old(View()), f))
    {
      if activePrep == null || activePrep.version != f.version {
        Respond(Result(f.id, f.zoneId, f.version, Ignored));
        return;
      }
      Respond(Result(f.id, f.zoneId, f.version, Committed));
      reconciled := reconciled + [activePrep];
      ClearDetails();
    }

    /** One frame, by its kind. `accepts` stands for the reconciler's verdict on a prepare. */
    method HandleRequest(f: Request, accepts: bool)
      requires Valid() && fault.None?
      modifies this, activePrep
      ensures Did(HandleFrame(old(View()), f, accepts))
    {
      match f
      case PollerPrepare(_, _, _, _) => HandlePollerPrepare(f, accepts);
      case PollerPrepareBlock(_, _, _, _) => HandlePollerPrepareBlock(f);
      case PollerPrepareNullBlock(_, _, _, _) => HandlePollerPrepareNullBlock(f);
      case PollerPrepareEnd(_, _, _, _) => HandlePollerPrepareEnd(f);
      case PollerCommit(_, _, _) => HandlePollerCommit(f);
    }

    method HandlePrepareTimeout()
      requires Valid() && prepareToEndTimer == Some(Fired) && fault.None?
      modifies this
      ensures Did(HandleTimeout(old(View())))
    {
      prepareToEndTimer := None;
      if activePrep == null {
        fault := Some(NilMessage);
        return;
      }
      RespondToSource(activePrep.zoneId, activePrep.version, Failed);
      if fault.None? {
        ClearDetails();
      }
    }
  }
}
