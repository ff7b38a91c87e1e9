/** What becomes of every preparation: nothing stays half done. */
module Resolution {
  import opened Protocol
  import opened ChecksPreparations
  import opened Schedulers
  import opened Agents
  import opened Sessions
  import opened Transmissions
  import opened TwoPhaseCommit
  import Outcomes

  predicate AwaitsPrepare(a: Agent, id: nat, version: int) {
    id in a.pending && !a.pending[id].committing && a.pending[id].version == version
  }

  predicate Bears(r: seq<Response>, id: nat) {
    exists i | 0 <= i < |r| :: r[i].id == id
  }

  /** The first answer bearing `id` says `prepared`. */
  ghost predicate PreparedFirst(r: seq<Response>, id: nat) {
    exists i | 0 <= i < |r| ::
      r[i].Result? && r[i].id == id && r[i].status == Prepared && forall j | 0 <= j < i :: r[j].id != id
  }

  predicate CommitUnderWay(q: seq<Request>, version: int) {
    exists i | 0 <= i < |q| :: IsCommit(q[i]) && q[i].version == version
  }

  /** Message ids grow along the channel and are new with respect to every answer under way. */
  ghost predicate IdsOk(a: Agent, q: seq<Request>, r: seq<Response>) {
    && (forall i | 0 <= i < |q| :: q[i].id <= a.outMsgId)
    && (forall i, j | 0 <= i < j < |q| :: q[i].id < q[j].id)
    && (forall i, j | 0 <= i < |r| && 0 <= j < |q| :: r[i].id < q[j].id)
    && (forall i | 0 <= i < |r| :: r[i].Result? && r[i].id <= a.outMsgId)
    && (forall i | 0 <= i < |q| && q[i].PollerPrepare? :: AwaitsPrepare(a, q[i].id, q[i].version))
  }

  /** The active preparation is on its way to a commit. */
  ghost predicate ActiveOk(a: Agent, q: seq<Request>, s: Session, r: seq<Response>, sent: map<int, Sent>, newest: int) {
    s.active.Some? ==>
      var v := s.active.value.version;
      && v in sent && sent[v].id <= a.outMsgId
      && (forall i | 0 <= i < |q| :: sent[v].id < q[i].id)
      && (if Receiving(s, q, newest)
          then AwaitsPrepare(a, sent[v].id, v) && !Bears(r, sent[v].id)
          else (AwaitsPrepare(a, sent[v].id, v) && PreparedFirst(r, sent[v].id)) || CommitUnderWay(q, v))
  }

  predicate PrepareUnread(q: seq<Request>, id: nat) {
    exists i | 0 <= i < |q| :: q[i].PollerPrepare? && q[i].id == id
  }

  predicate BeingReceived(q: seq<Request>, s: Session, sent: map<int, Sent>, newest: int, id: nat) {
    Receiving(s, q, newest) && newest in sent && sent[newest].id == id
  }

  /** Every prepare the agent still waits for is unread, being received, or answered. */
  ghost predicate WaitingOk(a: Agent, q: seq<Request>, s: Session, r: seq<Response>, sent: map<int, Sent>, newest: int) {
    forall k | k in a.pending && !a.pending[k].committing ::
      PrepareUnread(q, k) || BeingReceived(q, s, sent, newest, k) || Bears(r, k)
  }

  ghost predicate Resolving(s: System) {
    && Inv(s)
    && IdsOk(s.agent, s.toPoller, s.toAgent)
    && ActiveOk(s.agent, s.toPoller, s.session, s.toAgent, s.history.sent, s.history.newest)
    && WaitingOk(s.agent, s.toPoller, s.session, s.toAgent, s.history.sent, s.history.newest)
  }

  lemma InitiallyResolving(blockSize: nat, zoneIds: set<string>)
    ensures Resolving(Initial(blockSize, zoneIds))
  {
    InitialInv(blockSize, zoneIds);
  }

  // ---- frames appended to the channel ----

  lemma Appended(q: seq<Request>, out: seq<Request>, version: int)
    ensures CommitUnderWay(q, version) ==> CommitUnderWay(q + out, version)
    ensures forall k | PrepareUnread(q, k) :: PrepareUnread(q + out, k)
  {
    assert forall i | 0 <= i < |q| :: (q + out)[i] == q[i];
  }

  lemma TransmitIds(a: Agent, a': Agent, q: seq<Request>, out: seq<Request>, r: seq<Response>, ids: seq<string>)
    requires IdsOk(a, q, r) && Transmits(out, a.outMsgId + 1, a.checksVersion + 1)
    requires a'.outMsgId == a.outMsgId + |out|
    requires a'.pending == a.pending[a.outMsgId + 1 := Pending(a.checksVersion + 1, ids, false)]
    ensures IdsOk(a', q + out, r)
  {
  }

  lemma TransmitActive(a: Agent, a': Agent, q: seq<Request>, out: seq<Request>, s: Session, r: seq<Response>,
                       sent: map<int, Sent>, newest: int, b: Sent, ids: seq<string>)
    requires ActiveOk(a, q, s, r, sent, newest) && Transmits(out, a.outMsgId + 1, a.checksVersion + 1)
    requires a'.outMsgId == a.outMsgId + |out| && Mid(q + out) == Mid(q)
    requires a'.pending == a.pending[a.outMsgId + 1 := Pending(a.checksVersion + 1, ids, false)]
    requires a.checksVersion + 1 !in sent
    ensures ActiveOk(a', q + out, s, r, sent[a.checksVersion + 1 := b], newest)
  {
    if s.active.Some? {
      Appended(q, out, s.active.value.version);
    }
  }

  lemma TransmitWaiting(a: Agent, a': Agent, q: seq<Request>, out: seq<Request>, s: Session, r: seq<Response>,
                        sent: map<int, Sent>, newest: int, b: Sent, ids: seq<string>)
    requires WaitingOk(a, q, s, r, sent, newest) && Transmits(out, a.outMsgId + 1, a.checksVersion + 1)
    requires Mid(q + out) == Mid(q)
    requires a'.pending == a.pending[a.outMsgId + 1 := Pending(a.checksVersion + 1, ids, false)]
    requires a.checksVersion + 1 !in sent
    ensures WaitingOk(a', q + out, s, r, sent[a.checksVersion + 1 := b], newest)
  {
    Appended(q, out, 0);
    assert PrepareUnread(q + out, a.outMsgId + 1) by { assert (q + out)[|q|] == out[0]; }
    forall k | BeingReceived(q, s, sent, newest, k)
      ensures BeingReceived(q + out, s, sent[a.checksVersion + 1 := b], newest, k) {
    }
  }

  lemma TransmitResolves(s: System, start: seq<CheckIn>, restart: seq<CheckIn>)
    requires Resolving(s) && forall c <- start + restart :: Parses(c)
    ensures Resolving(Apply(s, Transmit(start, restart)))
  {
    hide Inv, IdsOk, ActiveOk, WaitingOk;
    TransmitKeepsInv(s, start, restart);
    var (a, out) := PrepareChecks(s.agent, start, restart);
    var h, b, ids := s.history, Sent(s.agent.outMsgId + 1, start, restart), CheckIds(start + restart);
    TransmissionShape(b.id, a.checksVersion, start, restart, s.agent.blockSize);
    TransmitFront(s, start, restart);
    TransmitIds(s.agent, a, s.toPoller, out, s.toAgent, ids);
    TransmitActive(s.agent, a, s.toPoller, out, s.session, s.toAgent, h.sent, h.newest, b, ids);
    TransmitWaiting(s.agent, a, s.toPoller, out, s.session, s.toAgent, h.sent, h.newest, b, ids);
  }

  lemma TransmitFront(s: System, start: seq<CheckIn>, restart: seq<CheckIn>)
    requires Inv(s) && forall c <- start + restart :: Parses(c)
    ensures Mid(Apply(s, Transmit(start, restart)).toPoller) == Mid(s.toPoller)
    ensures s.agent.checksVersion + 1 !in s.history.sent
  {
    TransmitKeepsInv(s, start, restart);
  }

  // ---- the agent reads an answer ----

  lemma AgentReadsIds(a: Agent, q: seq<Request>, r: seq<Response>)
    requires IdsOk(a, q, r) && r != []
    ensures IdsOk(Receive(a, r[0]).0, q + Receive(a, r[0]).1, r[1..])
  {
  }

  lemma AgentReadsActive(a: Agent, q: seq<Request>, s: Session, r: seq<Response>, sent: map<int, Sent>, newest: int)
    requires IdsOk(a, q, r) && r != [] && ActiveOk(a, q, s, r, sent, newest)
    requires var out := Receive(a, r[0]).1; Mid(q + out) == Mid(q)
    ensures var (a', out) := Receive(a, r[0]);
            ActiveOk(a', q + out, s, r[1..], sent, newest)
  {
    if s.active.Some? {
      var (a', out) := Receive(a, r[0]);
      var v := s.active.value.version;
      Appended(q, out, v);
      assert forall i | 0 <= i < |q + out| :: sent[v].id < (q + out)[i].id;
      if Receiving(s, q, newest) {
        StillUnanswered(a, r, sent[v].id, v);
      } else if !CommitUnderWay(q, v) {
        StillPreparedFirst(a, q, r, sent[v].id, v);
      }
    }
  }

  lemma StillUnanswered(a: Agent, r: seq<Response>, id: nat, v: int)
    requires r != [] && AwaitsPrepare(a, id, v) && !Bears(r, id) && id <= a.outMsgId
    ensures AwaitsPrepare(Receive(a, r[0]).0, id, v) && !Bears(r[1..], id)
  {
    assert r[0].id != id;
    assert forall i | 0 <= i < |r| - 1 :: r[1..][i] == r[i + 1];
  }

  lemma StillPreparedFirst(a: Agent, q: seq<Request>, r: seq<Response>, id: nat, v: int)
    requires r != [] && AwaitsPrepare(a, id, v) && PreparedFirst(r, id) && id <= a.outMsgId
    ensures var (a', out) := Receive(a, r[0]);
            (AwaitsPrepare(a', id, v) && PreparedFirst(r[1..], id)) || CommitUnderWay(q + out, v)
  {
    var (a', out) := Receive(a, r[0]);
    var i :| 0 <= i < |r| && r[i].Result? && r[i].id == id && r[i].status == Prepared && forall j | 0 <= j < i :: r[j].id != id;
    if i == 0 {
      assert IsCommit((q + out)[|q|]) && (q + out)[|q|].version == v;
    } else {
      assert r[1..][i - 1] == r[i];
      assert forall j | 0 <= j < i - 1 :: r[1..][j] == r[j + 1];
    }
  }

  lemma AgentReadsWaiting(a: Agent, q: seq<Request>, s: Session, r: seq<Response>, sent: map<int, Sent>, newest: int)
    requires IdsOk(a, q, r) && r != [] && WaitingOk(a, q, s, r, sent, newest)
    requires var out := Receive(a, r[0]).1; Mid(q + out) == Mid(q)
    ensures var (a', out) := Receive(a, r[0]);
            WaitingOk(a', q + out, s, r[1..], sent, newest)
  {
    var (a', out) := Receive(a, r[0]);
    Appended(q, out, 0);
    forall k | BeingReceived(q, s, sent, newest, k) ensures BeingReceived(q + out, s, sent, newest, k) {
    }
    forall k | k in a'.pending && !a'.pending[k].committing && Bears(r, k) ensures Bears(r[1..], k) {
      var i :| 0 <= i < |r| && r[i].id == k;
      assert k in a.pending && i > 0;
      assert r[1..][i - 1] == r[i];
    }
  }

  lemma AgentReadsResolves(s: System)
    requires Resolving(s) && s.toAgent != []
    ensures Resolving(Apply(s, AgentReads))
  {
    hide IdsOk, ActiveOk, WaitingOk;
    AgentReadsKeepsInv(s);
    var h := s.history;
    var (a, out) := Receive(s.agent, s.toAgent[0]);
    assert Mid(s.toPoller + out) == Mid(s.toPoller) by { hide Inv; }
    AgentReadsIds(s.agent, s.toPoller, s.toAgent);
    AgentReadsActive(s.agent, s.toPoller, s.session, s.toAgent, h.sent, h.newest);
    AgentReadsWaiting(s.agent, s.toPoller, s.session, s.toAgent, h.sent, h.newest);
  }

  // ---- the session reads a frame ----

  lemma SessionReadsIds(a: Agent, s: Session, q: seq<Request>, r: seq<Response>, sent: map<int, Sent>, newest: int, accepts: bool)
    requires q != [] && IdsOk(a, q, r) && ActiveOk(a, q, s, r, sent, newest) && SessionOk(s, q, sent, newest)
    ensures IdsOk(a, q[1..], r + HandleFrame(s, q[0], accepts).replies)
  {
    AnswersBear(s, q, sent, newest, accepts);
  }

  /** Answers bear the id of the frame read or of the prepare that started the active preparation. */
  lemma AnswersBear(s: Session, q: seq<Request>, sent: map<int, Sent>, newest: int, accepts: bool)
    requires q != [] && SessionOk(s, q, sent, newest)
    ensures forall x <- HandleFrame(s, q[0], accepts).replies ::
              x.Result? && (x.id == q[0].id || (s.active.Some? && x.id == sent[s.active.value.version].id))
  {
  }

  lemma AnswersAdded(r: seq<Response>, more: seq<Response>, id: nat)
    ensures Bears(r, id) ==> Bears(r + more, id)
    ensures (exists x <- more :: x.id == id) ==> Bears(r + more, id)
    ensures PreparedFirst(r, id) ==> PreparedFirst(r + more, id)
    ensures !Bears(r, id) && (forall x <- more :: x.id != id) ==> !Bears(r + more, id)
    ensures !Bears(r, id) && |more| == 1 && more[0].Result? && more[0].id == id && more[0].status == Prepared
            ==> PreparedFirst(r + more, id)
  {
    assert forall i | 0 <= i < |r| :: (r + more)[i] == r[i];
    assert forall i | 0 <= i < |more| :: (r + more)[|r| + i] == more[i];
  }

  lemma FrameTaken(q: seq<Request>, version: int)
    requires q != []
    ensures CommitUnderWay(q, version) && !(IsCommit(q[0]) && q[0].version == version) ==> CommitUnderWay(q[1..], version)
    ensures forall k | PrepareUnread(q, k) && !(q[0].PollerPrepare? && q[0].id == k) :: PrepareUnread(q[1..], k)
  {
    assert forall i | 0 <= i < |q| - 1 :: q[1..][i] == q[i + 1];
    if CommitUnderWay(q, version) && !(IsCommit(q[0]) && q[0].version == version) {
      var i :| 0 <= i < |q| && IsCommit(q[i]) && q[i].version == version;
      assert q[1..][i - 1] == q[i];
    }
    forall k | PrepareUnread(q, k) && !(q[0].PollerPrepare? && q[0].id == k) ensures PrepareUnread(q[1..], k) {
      var i :| 0 <= i < |q| && q[i].PollerPrepare? && q[i].id == k;
      assert q[1..][i - 1] == q[i];
    }
  }

  function NewestRead(newest: int, f: Request): int { if f.PollerPrepare? then f.version else newest }

  lemma SessionReadsActive(a: Agent, s: Session, q: seq<Request>, r: seq<Response>, sent: map<int, Sent>, newest: int, accepts: bool)
    requires q != [] && IdsOk(a, q, r) && ActiveOk(a, q, s, r, sent, newest)
    requires SessionOk(s, q, sent, newest) && Stream(q, sent, newest)
    ensures var o := HandleFrame(s, q[0], accepts);
            ActiveOk(a, q[1..], o.next, r + o.replies, sent, NewestRead(newest, q[0]))
  {
    var f, o := q[0], HandleFrame(s, q[0], accepts);
    if o.next.active.Some? {
      var v := o.next.active.value.version;
      FrameTaken(q, v);
      if f.PollerPrepare? {
        PrepareReadActive(a, s, q, r, sent, newest, accepts);
      } else {
        AnswersAdded(r, o.replies, sent[v].id);
        if f.PollerPrepareEnd? && Receiving(s, q, newest) {
          assert AddDefinitions(s.active.value, []) == s.active.value;
          FinalValidates(newest, sent[newest]);
        }
      }
    }
  }

  lemma PrepareReadActive(a: Agent, s: Session, q: seq<Request>, r: seq<Response>, sent: map<int, Sent>, newest: int, accepts: bool)
    requires q != [] && q[0].PollerPrepare? && IdsOk(a, q, r) && ActiveOk(a, q, s, r, sent, newest)
    requires SessionOk(s, q, sent, newest) && Stream(q, sent, newest)
    ensures var o := HandleFrame(s, q[0], accepts);
            ActiveOk(a, q[1..], o.next, r + o.replies, sent, q[0].version)
  {
    var f, o := q[0], HandleFrame(s, q[0], accepts);
    ManifestDeclares(sent[f.version], "");
    var v := if o.next.active.Some? then o.next.active.value.version else 0;
    FrameTaken(q, v);
    if o.next.active.Some? {
      AnswersAdded(r, o.replies, sent[v].id);
    }
  }

  lemma SessionReadsWaiting(a: Agent, s: Session, q: seq<Request>, r: seq<Response>, sent: map<int, Sent>, newest: int, accepts: bool)
    requires q != [] && IdsOk(a, q, r) && WaitingOk(a, q, s, r, sent, newest)
    requires SessionOk(s, q, sent, newest) && Stream(q, sent, newest)
    ensures var o := HandleFrame(s, q[0], accepts);
            WaitingOk(a, q[1..], o.next, r + o.replies, sent, NewestRead(newest, q[0]))
  {
    var f, o := q[0], HandleFrame(s, q[0], accepts);
    FrameTaken(q, 0);
    if f.PollerPrepare? {
      ManifestDeclares(sent[f.version], "");
    } else if f.PollerPrepareEnd? && Receiving(s, q, newest) {
      assert AddDefinitions(s.active.value, []) == s.active.value;
      FinalValidates(newest, sent[newest]);
    }
    forall k | k in a.pending && !a.pending[k].committing
      ensures || PrepareUnread(q[1..], k)
              || BeingReceived(q[1..], o.next, sent, NewestRead(newest, f), k)
              || Bears(r + o.replies, k)
    {
      AnswersAdded(r, o.replies, k);
      assert PrepareUnread(q, k) || BeingReceived(q, s, sent, newest, k) || Bears(r, k);
    }
  }

  lemma SessionReadsResolves(s: System, accepts: bool)
    requires Resolving(s) && s.toPoller != []
    ensures Resolving(Apply(s, SessionReads(accepts)))
  {
    hide IdsOk, ActiveOk, WaitingOk, HandlePrepare, HandleBlock, HandleEnd, HandleCommit, SessionOk, Stream;
    var h := s.history;
    SessionReadsKeepsInv(s, accepts);
    assert SessionOk(s.session, s.toPoller, h.sent, h.newest) && Stream(s.toPoller, h.sent, h.newest);
    assert s.session.fault.None? by { Unfaulted(s); }
    SessionReadsIds(s.agent, s.session, s.toPoller, s.toAgent, h.sent, h.newest, accepts);
    SessionReadsActive(s.agent, s.session, s.toPoller, s.toAgent, h.sent, h.newest, accepts);
    SessionReadsWaiting(s.agent, s.session, s.toPoller, s.toAgent, h.sent, h.newest, accepts);
  }

  lemma Unfaulted(s: System)
    requires Inv(s)
    ensures s.session.fault.None?
  {
  }

  // ---- the timer, the schedulers, whole runs ----

  lemma TimerReadWaiting(a: Agent, s: Session, q: seq<Request>, r: seq<Response>, sent: map<int, Sent>, newest: int)
    requires s.timer == Some(Fired) && SessionOk(s, q, sent, newest)
    requires IdsOk(a, q, r) && ActiveOk(a, q, s, r, sent, newest) && WaitingOk(a, q, s, r, sent, newest)
    ensures var o := HandleTimeout(s);
            IdsOk(a, q, r + o.replies) && WaitingOk(a, q, o.next, r + o.replies, sent, newest)
  {
    var o := HandleTimeout(s);
    assert o.replies[0].id == sent[newest].id;
    forall k | k in a.pending && !a.pending[k].committing
      ensures PrepareUnread(q, k) || Bears(r + o.replies, k)
    {
      AnswersAdded(r, o.replies, k);
      assert PrepareUnread(q, k) || BeingReceived(q, s, sent, newest, k) || Bears(r, k);
    }
  }

  lemma SessionOfInv(s: System)
    requires Inv(s)
    ensures SessionOk(s.session, s.toPoller, s.history.sent, s.history.newest)
  {
  }

  lemma TimerResolves(s: System, step: Step)
    requires Resolving(s) && (step == TimerFires || step == TimerIsRead)
    ensures Resolving(Apply(s, step))
  {
    hide Inv, IdsOk, WaitingOk, ActiveOk, SessionOk;
    TimerKeepsInv(s, step);
    if step == TimerIsRead && s.session.timer == Some(Fired) {
      SessionOfInv(s);
      TimerReadWaiting(s.agent, s.session, s.toPoller, s.toAgent, s.history.sent, s.history.newest);
      TimerReadActive(s);
    } else {
      TimerFiresActive(s);
    }
  }

  lemma TimerReadActive(s: System)
    requires s.session.timer == Some(Fired)
    requires SessionOk(s.session, s.toPoller, s.history.sent, s.history.newest)
    ensures HandleTimeout(s.session).next.active.None?
    ensures forall r :: ActiveOk(s.agent, s.toPoller, HandleTimeout(s.session).next, r, s.history.sent, s.history.newest)
  {
  }

  lemma TimerFiresActive(s: System)
    requires Resolving(s)
    ensures var fired := s.session.(timer := Some(Fired));
            && ActiveOk(s.agent, s.toPoller, fired, s.toAgent, s.history.sent, s.history.newest)
            && WaitingOk(s.agent, s.toPoller, fired, s.toAgent, s.history.sent, s.history.newest)
  {
    var fired := s.session.(timer := Some(Fired));
    assert forall k | BeingReceived(s.toPoller, s.session, s.history.sent, s.history.newest, k) ::
        BeingReceived(s.toPoller, fired, s.history.sent, s.history.newest, k);
  }

  lemma StepResolves(s: System, step: Step)
    requires Resolving(s)
    ensures Resolving(Apply(s, step))
  {
    hide Inv, IdsOk, ActiveOk, WaitingOk;
    match step
    case Transmit(start, restart) =>
      if forall c <- start + restart :: Parses(c) {
        TransmitResolves(s, start, restart);
      }
    case AgentReads =>
      if s.toAgent != [] {
        AgentReadsResolves(s);
      }
    case SessionReads(accepts) =>
      if s.toPoller != [] {
        SessionReadsResolves(s, accepts);
      }
    case TimerFires => TimerResolves(s, step);
    case TimerIsRead => TimerResolves(s, step);
    case ZoneReconciles(zone) => ZoneKeepsInv(s, zone);
  }

  lemma {:induction false} RunResolves(blockSize: nat, zoneIds: set<string>, steps: seq<Step>)
    ensures Resolving(Run(blockSize, zoneIds, steps))
  {
    if |steps| == 0 {
      InitiallyResolving(blockSize, zoneIds);
    } else {
      RunResolves(blockSize, zoneIds, steps[..|steps| - 1]);
      StepResolves(Run(blockSize, zoneIds, steps[..|steps| - 1]), steps[|steps| - 1]);
    }
  }

  /** Nothing stays half done. Once both channels are empty the session has no active preparation and no
      timer, and the agent waits for no answer to a prepare; what it may still wait for are commits
      of versions that were not handed over. */
  lemma NothingHalfDone(blockSize: nat, zoneIds: set<string>, steps: seq<Step>)
    ensures var s := Run(blockSize, zoneIds, steps);
            s.toPoller == [] && s.toAgent == [] ==>
              && s.session.active.None? && s.session.src.None? && s.session.timer.None?
              && forall k <- s.agent.pending ::
                   && s.agent.pending[k].committing
                   && forall p <- s.history.handed :: p.version != s.agent.pending[k].version
  {
    RunResolves(blockSize, zoneIds, steps);
    Outcomes.AwaitedWereNotHanded(blockSize, zoneIds, steps);
  }

  // ---- runs in which nothing times out and nothing is rejected ----

  predicate Smooth(step: Step) {
    step != TimerFires && step != SessionReads(false)
  }

  predicate VersionUnread(q: seq<Request>, version: int) {
    exists i | 0 <= i < |q| :: q[i].PollerPrepare? && q[i].version == version
  }

  /** The newest version is unread, active, or the last one handed over. */
  ghost predicate Pursued(q: seq<Request>, s: Session, h: History, v: int) {
    || v == 0
    || VersionUnread(q, v)
    || VersionApplies(s.active, v)
    || (h.handed != [] && h.handed[|h.handed| - 1].version == v)
  }

  ghost predicate NewestPursued(s: System) {
    && s.session.timer != Some(Fired)
    && Pursued(s.toPoller, s.session, s.history, s.agent.checksVersion)
  }

  lemma UnreadGrows(q: seq<Request>, out: seq<Request>, version: int)
    requires VersionUnread(q, version)
    ensures VersionUnread(q + out, version)
  {
    var i :| 0 <= i < |q| && q[i].PollerPrepare? && q[i].version == version;
    assert (q + out)[i] == q[i];
  }

  lemma TransmitPursues(s: System, start: seq<CheckIn>, restart: seq<CheckIn>)
    requires NewestPursued(s)
    ensures NewestPursued(Apply(s, Transmit(start, restart)))
  {
    if forall c <- start + restart :: Parses(c) {
      var (a, out) := PrepareChecks(s.agent, start, restart);
      assert (s.toPoller + out)[|s.toPoller|] == out[0];
      assert VersionUnread(s.toPoller + out, a.checksVersion);
    }
  }

  lemma {:induction false} NewestAtLeast(q: seq<Request>, sent: map<int, Sent>, newest: int)
    requires Stream(q, sent, newest)
    ensures newest <= Newest(q, newest)
    ensures q != [] && q[0].PollerPrepare? ==> newest < q[0].version <= Newest(q, newest)
  {
    if q != [] {
      NewestAtLeast(q[1..], sent, NewestRead(newest, q[0]));
    }
  }

  lemma UnreadTaken(q: seq<Request>, version: int)
    requires VersionUnread(q, version)
    ensures (q[0].PollerPrepare? && q[0].version == version) || VersionUnread(q[1..], version)
  {
    var i :| 0 <= i < |q| && q[i].PollerPrepare? && q[i].version == version;
    if i > 0 {
      assert q[1..][i - 1] == q[i];
    }
  }

  /** A prepare that is accepted becomes active; it is never an older one that does. */
  lemma PrepareReadPursues(q: seq<Request>, s: Session, h: History, v: int)
    requires q != [] && q[0].PollerPrepare? && SessionOk(s, q, h.sent, h.newest) && Stream(q, h.sent, h.newest)
    requires HistoryOk(h, s) && Newest(q, h.newest) <= v && Pursued(q, s, h, v)
    ensures var o := HandleFrame(s, q[0], true);
            Pursued(q[1..], o.next, Record(h, q[0], o), v)
  {
    NewestAtLeast(q, h.sent, h.newest);
    ManifestDeclares(h.sent[q[0].version], "");
    if h.handed != [] {
      assert h.handed[|h.handed| - 1] in h.handed;
    }
    UnreadTaken(q, v);
  }

  lemma ActiveAfterFrame(q: seq<Request>, s: Session, sent: map<int, Sent>, newest: int, v: int)
    requires q != [] && !q[0].PollerPrepare? && SessionOk(s, q, sent, newest) && Stream(q, sent, newest) && VersionApplies(s.active, v)
    ensures var o := HandleFrame(s, q[0], true);
            VersionApplies(o.next.active, v) || (o.handed != [] && o.handed[|o.handed| - 1].version == v)
  {
  }

  lemma FrameReadPursues(q: seq<Request>, s: Session, h: History, v: int)
    requires q != [] && !q[0].PollerPrepare? && SessionOk(s, q, h.sent, h.newest) && Stream(q, h.sent, h.newest)
    requires HistoryOk(h, s) && Newest(q, h.newest) <= v && Pursued(q, s, h, v)
    ensures var o := HandleFrame(s, q[0], true);
            Pursued(q[1..], o.next, Record(h, q[0], o), v)
  {
    var o := HandleFrame(s, q[0], true);
    NewestAtLeast(q, h.sent, h.newest);
    if VersionUnread(q, v) {
      UnreadTaken(q, v);
    } else if VersionApplies(s.active, v) {
      ActiveAfterFrame(q, s, h.sent, h.newest, v);
    } else if v > 0 {
      LastStaysLast(q, s, h, v);
      assert h.handed + o.handed == h.handed;
    }
  }

  /** Nothing is handed over after the newest version. */
  lemma LastStaysLast(q: seq<Request>, s: Session, h: History, v: int)
    requires q != [] && SessionOk(s, q, h.sent, h.newest) && Stream(q, h.sent, h.newest) && HistoryOk(h, s)
    requires Newest(q, h.newest) <= v && h.handed != [] && h.handed[|h.handed| - 1].version == v
    ensures HandleFrame(s, q[0], true).handed == []
  {
    NewestAtLeast(q, h.sent, h.newest);
    SessionHandsOver(s, q, h.sent, h.newest, true);
    assert h.handed[|h.handed| - 1] in h.handed;
  }

  lemma SessionPursues(s: System)
    requires Inv(s) && NewestPursued(s) && s.toPoller != []
    ensures NewestPursued(Apply(s, SessionReads(true)))
  {
    hide CommitsOk, ZoneOk, Believed, LastSent, Stream, HistoryOk, AgentOk, Pursued;
    if s.toPoller[0].PollerPrepare? {
      PrepareReadPursues(s.toPoller, s.session, s.history, s.agent.checksVersion);
    } else {
      FrameReadPursues(s.toPoller, s.session, s.history, s.agent.checksVersion);
    }
  }

  lemma AgentPursues(s: System)
    requires NewestPursued(s)
    ensures NewestPursued(Apply(s, AgentReads))
  {
    if s.toAgent != [] && VersionUnread(s.toPoller, s.agent.checksVersion) {
      UnreadGrows(s.toPoller, Receive(s.agent, s.toAgent[0]).1, s.agent.checksVersion);
    }
  }

  lemma {:induction false} RunPursues(blockSize: nat, zoneIds: set<string>, steps: seq<Step>)
    requires forall step <- steps :: Smooth(step)
    ensures NewestPursued(Run(blockSize, zoneIds, steps))
  {
    if |steps| > 0 {
      hide Inv;
      var n := |steps| - 1;
      var s := Run(blockSize, zoneIds, steps[..n]);
      RunPursues(blockSize, zoneIds, steps[..n]);
      RunInv(blockSize, zoneIds, steps[..n]);
      assert Smooth(steps[n]);
      match steps[n]
      case Transmit(start, restart) => TransmitPursues(s, start, restart);
      case AgentReads => AgentPursues(s);
      case SessionReads(accepts) =>
        if s.toPoller != [] {
          SessionPursues(s);
        }
      case TimerIsRead =>
      case ZoneReconciles(_) =>
    }
  }

  /** The last transmission wins. In a run without time-outs and rejections, however transmissions overlap,
      once nothing is under way the poller runs exactly what was sent last, and the agent knows it. */
  lemma LastTransmissionWins(blockSize: nat, zoneIds: set<string>, steps: seq<Step>)
    requires forall step <- steps :: Smooth(step)
    ensures var s := Run(blockSize, zoneIds, steps);
            var v := s.agent.checksVersion;
            Quiescent(s) && v > 0 ==>
              && v in s.history.sent
              && s.agent.committedChecks == Some(Ids(Checks(s.history.sent[v])))
              && forall z <- s.zones :: s.zones[z].defs == Wanted(s.history.sent[v])
  {
    hide Run, FinalPrep, Wanted;
    var s := Run(blockSize, zoneIds, steps);
    RunPursues(blockSize, zoneIds, steps);
    NothingHalfDone(blockSize, zoneIds, steps);
    Agreement(blockSize, zoneIds, steps);
    TwoPhaseSafety(blockSize, zoneIds, steps);
    if Quiescent(s) && s.agent.checksVersion > 0 {
      var p := s.history.handed[|s.history.handed| - 1];
      assert p in s.history.handed;
      FinalValidates(p.version, s.history.sent[p.version]);
    }
  }
}
