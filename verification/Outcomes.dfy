/** What becomes of commits, and what a `prepared` answer vouches for, in the joined system. */
module Outcomes {
  import opened Protocol
  import opened ChecksPreparations
  import opened Agents
  import opened Sessions
  import opened Transmissions
  import opened TwoPhaseCommit

  predicate WasHanded(handed: seq<Prep>, version: int) {
    exists p <- handed :: p.version == version
  }

  predicate Unread(q: seq<Request>, id: nat) {
    exists i | 0 <= i < |q| :: IsCommit(q[i]) && q[i].id == id
  }

  predicate Answered(r: seq<Response>, id: nat) {
    exists i | 0 <= i < |r| :: IsCommitted(r[i]) && r[i].id == id
  }

  /** One pending entry per version. */
  ghost predicate OneEach(a: Agent) {
    && (forall k <- a.pending :: k <= a.outMsgId && a.pending[k].version <= a.checksVersion)
    && (forall k, l | k in a.pending && l in a.pending && k != l :: a.pending[k].version != a.pending[l].version)
  }

  /** No version is handed over whose commit is still to be sent or read; a commit that was read, and is still
      waited for, is either being answered `committed` or its version was not handed over. */
  ghost predicate Awaiting(a: Agent, q: seq<Request>, r: seq<Response>, handed: seq<Prep>) {
    && (forall i | 0 <= i < |q| && IsCommit(q[i]) :: !WasHanded(handed, q[i].version))
    && (forall k | k in a.pending && !a.pending[k].committing :: !WasHanded(handed, a.pending[k].version))
    && (forall k | k in a.pending && a.pending[k].committing ::
          Unread(q, k) || Answered(r, k) || !WasHanded(handed, a.pending[k].version))
  }

  /** The answer bears the id and version of a prepare that was sent, and what it is about was found complete. */
  ghost predicate Vouched(h: History, x: Response) {
    x.Result? && x.status == Prepared ==>
      && x.version in h.sent && x.id == h.sent[x.version].id
      && FinalPrep(x.version, h.sent[x.version]) in h.prepared
  }

  ghost predicate Sound(s: System) {
    && OneEach(s.agent)
    && Awaiting(s.agent, s.toPoller, s.toAgent, s.history.handed)
    && forall x <- s.toAgent :: Vouched(s.history, x)
  }

  lemma UnreadGrows(q: seq<Request>, out: seq<Request>, k: nat)
    ensures Unread(q, k) ==> Unread(q + out, k)
  {
    assert forall i | 0 <= i < |q| :: (q + out)[i] == q[i];
  }

  lemma TransmitAwaiting(a: Agent, a': Agent, q: seq<Request>, out: seq<Request>, r: seq<Response>, handed: seq<Prep>, ids: seq<string>)
    requires OneEach(a) && Awaiting(a, q, r, handed) && Transmits(out, a.outMsgId + 1, a.checksVersion + 1)
    requires a'.pending == a.pending[a.outMsgId + 1 := Pending(a.checksVersion + 1, ids, false)]
    requires a'.outMsgId == a.outMsgId + |out| && a'.checksVersion == a.checksVersion + 1
    requires !WasHanded(handed, a.checksVersion + 1)
    ensures OneEach(a') && Awaiting(a', q + out, r, handed)
  {
    hide WasHanded;
    forall k ensures Unread(q, k) ==> Unread(q + out, k) {
      UnreadGrows(q, out, k);
    }
  }

  lemma HandedWereSent(s: System, version: int)
    requires Inv(s) && WasHanded(s.history.handed, version)
    ensures version in s.history.sent && version <= s.agent.checksVersion
  {
  }

  lemma VouchedGrows(h: History, v: int, b: Sent, x: Response)
    requires Vouched(h, x) && v !in h.sent
    ensures Vouched(h.(sent := h.sent[v := b]), x)
  {
  }

  lemma TransmitSound(s: System, start: seq<CheckIn>, restart: seq<CheckIn>)
    requires Inv(s) && Sound(s) && forall c <- start + restart :: Parses(c)
    ensures Sound(Apply(s, Transmit(start, restart)))
  {
    hide Inv, Awaiting, OneEach, Transmits, WasHanded, Vouched, Transmission, CheckIds;
    var (a, out) := PrepareChecks(s.agent, start, restart);
    var h, b := s.history, Sent(s.agent.outMsgId + 1, start, restart);
    TransmissionShape(b.id, a.checksVersion, start, restart, s.agent.blockSize);
    NextUnsent(s);
    if WasHanded(h.handed, a.checksVersion) {
      HandedWereSent(s, a.checksVersion);
    }
    TransmitAwaiting(s.agent, a, s.toPoller, out, s.toAgent, h.handed, CheckIds(start + restart));
    forall x | x in s.toAgent ensures Vouched(h.(sent := h.sent[a.checksVersion := b]), x) {
      VouchedGrows(h, a.checksVersion, b, x);
    }
  }

  lemma NextUnsent(s: System)
    requires Inv(s)
    ensures s.agent.checksVersion + 1 !in s.history.sent
  {
  }

  lemma AnsweredOther(r: seq<Response>, k: nat)
    requires r != [] && Answered(r, k) && !(IsCommitted(r[0]) && r[0].id == k)
    ensures Answered(r[1..], k)
  {
    var i :| 0 <= i < |r| && IsCommitted(r[i]) && r[i].id == k;
    assert r[1..][i - 1] == r[i];
  }

  lemma AgentReadsOneEach(a: Agent, r: Response)
    requires OneEach(a)
    ensures OneEach(Receive(a, r).0)
  {
  }

  lemma AgentReadsAwaiting(a: Agent, q: seq<Request>, r: seq<Response>, handed: seq<Prep>)
    requires OneEach(a) && Awaiting(a, q, r, handed) && r != []
    ensures var (a', out) := Receive(a, r[0]);
            Awaiting(a', q + out, r[1..], handed)
  {
    hide WasHanded, Unread, Answered;
    var (a', out) := Receive(a, r[0]);
    forall k | k in a'.pending && a'.pending[k].committing
      ensures Unread(q + out, k) || Answered(r[1..], k) || !WasHanded(handed, a'.pending[k].version)
    {
      UnreadGrows(q, out, k);
      if out != [] && k == out[0].id {
        NewCommitUnread(q, out);
      } else if Answered(r, k) {
        assert !(IsCommitted(r[0]) && r[0].id == k);
        AnsweredOther(r, k);
      }
    }
  }

  lemma NewCommitUnread(q: seq<Request>, out: seq<Request>)
    requires out != [] && IsCommit(out[0])
    ensures Unread(q + out, out[0].id)
  {
    assert (q + out)[|q|] == out[0];
  }

  lemma AgentReadsSound(s: System)
    requires Sound(s) && s.toAgent != []
    ensures Sound(Apply(s, AgentReads))
  {
    hide Awaiting, OneEach, Vouched, Receive;
    AgentReadsOneEach(s.agent, s.toAgent[0]);
    AgentReadsAwaiting(s.agent, s.toPoller, s.toAgent, s.history.handed);
    assert forall x <- s.toAgent[1..] :: x in s.toAgent;
  }

  // ---- the session reads a frame ----

  lemma NoneHanded(a: Agent, q: seq<Request>, r: seq<Response>, handed: seq<Prep>, more: seq<Response>)
    requires q != [] && Awaiting(a, q, r, handed)
    requires IsCommit(q[0]) ==> !WasHanded(handed, q[0].version)
    requires CommitsOk(a, q, r)
    ensures Awaiting(a, q[1..], r + more, handed)
  {
    hide WasHanded;
    forall k | k in a.pending && a.pending[k].committing
      ensures Unread(q[1..], k) || Answered(r + more, k) || !WasHanded(handed, a.pending[k].version)
    {
      StillUnreadOrRead(q, k);
      AnsweredGrows(r, more, k);
      if Unread(q, k) && IsCommit(q[0]) && q[0].id == k {
        assert AwaitsCommit(a, q[0].id, q[0].version);
      }
    }
  }

  lemma StillUnreadOrRead(q: seq<Request>, k: nat)
    requires q != []
    ensures Unread(q, k) ==> (IsCommit(q[0]) && q[0].id == k) || Unread(q[1..], k)
  {
    if Unread(q, k) {
      var i :| 0 <= i < |q| && IsCommit(q[i]) && q[i].id == k;
      if i > 0 {
        assert q[1..][i - 1] == q[i];
      }
    }
  }

  lemma AnsweredGrows(r: seq<Response>, more: seq<Response>, k: nat)
    ensures Answered(r, k) ==> Answered(r + more, k)
    ensures (exists x <- more :: IsCommitted(x) && x.id == k) ==> Answered(r + more, k)
  {
    assert forall i | 0 <= i < |r| :: (r + more)[i] == r[i];
    assert forall i | 0 <= i < |more| :: (r + more)[|r| + i] == more[i];
  }

  lemma OneHanded(a: Agent, q: seq<Request>, r: seq<Response>, handed: seq<Prep>, p: Prep, answer: Response)
    requires q != [] && Awaiting(a, q, r, handed) && OneEach(a) && CommitsOk(a, q, r)
    requires IsCommit(q[0]) && q[0].version == p.version && IsCommitted(answer) && answer.id == q[0].id
    ensures Awaiting(a, q[1..], r + [answer], handed + [p])
  {
    var id := q[0].id;
    assert AwaitsCommit(a, id, p.version);
    assert forall v :: WasHanded(handed + [p], v) <==> WasHanded(handed, v) || v == p.version by { HandedOneMore(handed, p); }
    hide WasHanded;
    forall i | 0 <= i < |q| - 1 && IsCommit(q[1..][i]) ensures !WasHanded(handed + [p], q[1..][i].version) {
      assert q[1..][i] == q[i + 1] && AwaitsCommit(a, q[i + 1].id, q[i + 1].version) && id < q[i + 1].id;
    }
    forall k | k in a.pending && a.pending[k].committing
      ensures Unread(q[1..], k) || Answered(r + [answer], k) || !WasHanded(handed + [p], a.pending[k].version)
    {
      StillUnreadOrRead(q, k);
      AnsweredGrows(r, [answer], k);
      assert k == id ==> answer in [answer];
    }
  }

  lemma HandedOneMore(handed: seq<Prep>, p: Prep)
    ensures forall v :: WasHanded(handed + [p], v) <==> WasHanded(handed, v) || v == p.version
  {
    forall v ensures WasHanded(handed + [p], v) <==> WasHanded(handed, v) || v == p.version {
      assert p in handed + [p] && forall x <- handed :: x in handed + [p];
    }
  }

  lemma SessionAwaiting(s: System, accepts: bool)
    requires Inv(s) && Sound(s) && s.toPoller != []
    ensures var o := HandleFrame(s.session, s.toPoller[0], accepts);
            Awaiting(s.agent, s.toPoller[1..], s.toAgent + o.replies, s.history.handed + o.handed)
  {
    var h, q := s.history, s.toPoller;
    assert SessionOk(s.session, q, h.sent, h.newest) && Stream(q, h.sent, h.newest) && CommitsOk(s.agent, q, s.toAgent);
    hide Inv, HandleFrame, FinalPrep, Awaiting, OneEach, CommitsOk, WasHanded;
    SessionHandsOver(s.session, q, h.sent, h.newest, accepts);
    var o := HandleFrame(s.session, q[0], accepts);
    if o.handed == [] {
      assert h.handed + o.handed == h.handed;
      assert IsCommit(q[0]) ==> !WasHanded(h.handed, q[0].version) by { HeadNotHanded(s.agent, q, s.toAgent, h.handed); }
      NoneHanded(s.agent, q, s.toAgent, h.handed, o.replies);
    } else {
      OneHanded(s.agent, q, s.toAgent, h.handed, o.handed[0], o.replies[0]);
      assert o.handed == [o.handed[0]] && o.replies == [o.replies[0]];
    }
  }

  lemma HeadNotHanded(a: Agent, q: seq<Request>, r: seq<Response>, handed: seq<Prep>)
    requires q != [] && Awaiting(a, q, r, handed)
    ensures IsCommit(q[0]) ==> !WasHanded(handed, q[0].version)
  {
  }

  lemma SessionVouches(s: Session, q: seq<Request>, h: History, accepts: bool)
    requires q != [] && SessionOk(s, q, h.sent, h.newest) && Stream(q, h.sent, h.newest)
    ensures var o := HandleFrame(s, q[0], accepts);
            forall x <- o.replies :: Vouched(Record(h, q[0], o), x)
  {
    if q[0].PollerPrepareEnd? && Receiving(s, q, h.newest) {
      assert AddDefinitions(s.active.value, []) == s.active.value;
      FinalValidates(h.newest, h.sent[h.newest]);
    }
  }

  lemma SessionSound(s: System, accepts: bool)
    requires Inv(s) && Sound(s) && s.toPoller != []
    ensures Sound(Apply(s, SessionReads(accepts)))
  {
    var h := s.history;
    SessionAwaiting(s, accepts);
    assert SessionOk(s.session, s.toPoller, h.sent, h.newest) && Stream(s.toPoller, h.sent, h.newest) && s.session.fault.None?;
    SessionVouches(s.session, s.toPoller, h, accepts);
    hide Inv, Awaiting, OneEach, HandleFrame;
    var o := HandleFrame(s.session, s.toPoller[0], accepts);
    forall x | x in s.toAgent + o.replies ensures Vouched(Record(h, s.toPoller[0], o), x) {
      if x in s.toAgent {
        assert Vouched(h, x);
      }
    }
  }

  lemma TickSound(s: System)
    requires Inv(s) && Sound(s)
    ensures Sound(Apply(s, TimerIsRead))
  {
    if s.session.timer == Some(Fired) {
      assert s.session.fault.None?;
      var o := HandleTimeout(s.session);
      assert forall x <- o.replies :: x.Result? ==> x.status == Failed;
      hide Inv, HandleTimeout, WasHanded, Vouched;
      forall k ensures Answered(s.toAgent, k) ==> Answered(s.toAgent + o.replies, k) {
        AnsweredGrows(s.toAgent, o.replies, k);
      }
      forall x | x in o.replies ensures Vouched(s.history, x) {
        NotPreparedVouched(s.history, x);
      }
    }
  }

  lemma NotPreparedVouched(h: History, x: Response)
    requires x.Result? ==> x.status != Prepared
    ensures Vouched(h, x)
  {
  }

  lemma {:induction false} RunSound(blockSize: nat, zoneIds: set<string>, steps: seq<Step>)
    ensures Sound(Run(blockSize, zoneIds, steps))
  {
    if |steps| > 0 {
      hide Inv, Sound;
      var n := |steps| - 1;
      RunInv(blockSize, zoneIds, steps[..n]);
      RunSound(blockSize, zoneIds, steps[..n]);
      StepSound(Run(blockSize, zoneIds, steps[..n]), steps[n]);
    }
  }

  lemma StepSound(s: System, step: Step)
    requires Inv(s) && Sound(s)
    ensures Sound(Apply(s, step))
  {
    hide Inv, OneEach, Awaiting, Vouched;
    match step
    case Transmit(start, restart) =>
      if forall c <- start + restart :: Parses(c) {
        TransmitSound(s, start, restart);
      }
    case AgentReads =>
      if s.toAgent != [] {
        AgentReadsSound(s);
      }
    case SessionReads(accepts) =>
      if s.toPoller != [] {
        SessionSound(s, accepts);
      }
    case TimerIsRead => TickSound(s);
    case TimerFires =>
    case ZoneReconciles(_) =>
  }

  /** Every answer `prepared` on its way bears the id and version of one prepare sent, and what was sent under that
      version was found complete. */
  lemma PreparedIsVouched(blockSize: nat, zoneIds: set<string>, steps: seq<Step>, x: Response)
    ensures var s := Run(blockSize, zoneIds, steps);
            x in s.toAgent && x.Result? && x.status == Prepared ==>
              && x.version in s.history.sent && x.id == s.history.sent[x.version].id
              && FinalPrep(x.version, s.history.sent[x.version]) in s.history.prepared
  {
    hide Run;
    RunSound(blockSize, zoneIds, steps);
    assert x in Run(blockSize, zoneIds, steps).toAgent ==> Vouched(Run(blockSize, zoneIds, steps).history, x);
  }

  /** Once the channels are empty, a commit still waited for is of a version that was not handed over. */
  lemma AwaitedWereNotHanded(blockSize: nat, zoneIds: set<string>, steps: seq<Step>)
    ensures var s := Run(blockSize, zoneIds, steps);
            s.toPoller == [] && s.toAgent == [] ==>
              forall k <- s.agent.pending :: forall p <- s.history.handed :: p.version != s.agent.pending[k].version
  {
    hide Run;
    RunSound(blockSize, zoneIds, steps);
    var s := Run(blockSize, zoneIds, steps);
    assert Awaiting(s.agent, s.toPoller, s.toAgent, s.history.handed);
    if s.toPoller == [] && s.toAgent == [] {
      forall k, p | k in s.agent.pending && p in s.history.handed ensures p.version != s.agent.pending[k].version {
        assert !Unread(s.toPoller, k) && !Answered(s.toAgent, k);
        assert !WasHanded(s.history.handed, s.agent.pending[k].version);
      }
    }
  }
}
