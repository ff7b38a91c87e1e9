/** An endpoint agent and a poller session joined by two FIFO channels, with the poller's schedulers
    behind the session. Every interleaving of their steps and of the timer is a run. */
module TwoPhaseCommit {
  import opened Protocol
  import opened ChecksPreparations
  import opened Schedulers
  import opened Agents
  import opened Sessions
  import opened Transmissions

  /** A zone's scheduler: preparations waiting to be reconciled, and the definitions being run. */
  datatype Zone = Zone(queue: seq<Prep>, defs: map<string, CheckIn>)

  /** What has happened so far: what was sent under each version; the newest version whose prepare the
      session has read; preparations as they were when answered `prepared`; preparations handed over. */
  datatype History = History(sent: map<int, Sent>, newest: int, prepared: seq<Prep>, handed: seq<Prep>)

  datatype System = System(
    agent: Agent,
    toPoller: seq<Request>,
    session: Session,
    toAgent: seq<Response>,
    zones: map<string, Zone>,
    history: History)

  datatype Step =
    | Transmit(start: seq<CheckIn>, restart: seq<CheckIn>)
    | AgentReads
    | SessionReads(accepts: bool)
    | TimerFires
    | TimerIsRead
    | ZoneReconciles(zone: string)

  function Initial(blockSize: nat, zoneIds: set<string>): System {
    System(NewAgent(blockSize), [], NewSession, [], map z | z in zoneIds :: Zone([], map[]), History(map[], 0, [], []))
  }

  function Push(zones: map<string, Zone>, ps: seq<Prep>): map<string, Zone> {
    map z | z in zones :: zones[z].(queue := zones[z].queue + ps)
  }

  function Record(h: History, f: Request, o: Outcome): History {
    History(h.sent,
            if f.PollerPrepare? then f.version else h.newest,
            if f.PollerPrepareEnd? && o.next.active.Some? && |o.replies| == 1 && o.replies[0].Result? && o.replies[0].status == Prepared
            then h.prepared + [o.next.active.value] else h.prepared,
            h.handed + o.handed)
  }

  /** A step that is not possible leaves everything as it is. The agent only transmits checks that it
      could build itself. */
  function Apply(s: System, step: Step): System {
    match step
    case Transmit(start, restart) =>
      if exists c <- start + restart :: !Parses(c) then s
      else
        var (a, out) := PrepareChecks(s.agent, start, restart);
        s.(agent := a, toPoller := s.toPoller + out,
           history := s.history.(sent := s.history.sent[a.checksVersion := Sent(s.agent.outMsgId + 1, start, restart)]))
    case AgentReads =>
      if s.toAgent == [] then s
      else
        var (a, out) := Receive(s.agent, s.toAgent[0]);
        s.(agent := a, toPoller := s.toPoller + out, toAgent := s.toAgent[1..])
    case SessionReads(accepts) =>
      if s.toPoller == [] || s.session.fault.Some? then s
      else
        var f := s.toPoller[0];
        var o := HandleFrame(s.session, f, accepts);
        s.(toPoller := s.toPoller[1..], session := o.next, toAgent := s.toAgent + o.replies,
           zones := Push(s.zones, o.handed), history := Record(s.history, f, o))
    case TimerFires =>
      if s.session.timer != Some(Running) then s
      else s.(session := s.session.(timer := Some(Fired)))
    case TimerIsRead =>
      if s.session.timer != Some(Fired) || s.session.fault.Some? then s
      else
        var o := HandleTimeout(s.session);
        s.(session := o.next, toAgent := s.toAgent + o.replies)
    case ZoneReconciles(z) =>
      if z !in s.zones || s.zones[z].queue == [] then s
      else
        var q := s.zones[z].queue;
        s.(zones := s.zones[z := Zone(q[1..], ReconcileDefs(s.zones[z].defs, q[0]))])
  }

  function Run(blockSize: nat, zoneIds: set<string>, steps: seq<Step>): System {
    if |steps| == 0 then Initial(blockSize, zoneIds)
    else Apply(Run(blockSize, zoneIds, steps[..|steps| - 1]), steps[|steps| - 1])
  }

  // ---- the channel to the poller ----

  /** The channel starts in the middle of a transmission. */
  predicate Mid(q: seq<Request>) {
    q != [] && (q[0].PollerPrepareBlock? || q[0].PollerPrepareEnd?)
  }

  /** Definitions still to come in the transmission the channel starts in. */
  function Rest(q: seq<Request>): seq<CheckIn> {
    if q != [] && q[0].PollerPrepareBlock? then q[0].block + Rest(q[1..]) else []
  }

  /** The channel holds the rest of a transmission of `newest`, if it starts in one, and then whole
      transmissions of ever newer versions with commits between them, not within them. */
  ghost predicate Stream(q: seq<Request>, sent: map<int, Sent>, newest: int) {
    if q == [] then true
    else
      var f, tail := q[0], q[1..];
      match f
      case PollerPrepare(_, _, v, _) =>
        && v > newest && v in sent && f == Source(v, sent[v])
        && Mid(tail) && Rest(tail) == Checks(sent[v]) && Stream(tail, sent, v)
      case PollerPrepareBlock(_, _, v, _) => v == newest && Mid(tail) && Stream(tail, sent, newest)
      case PollerPrepareNullBlock(_, _, _, _) => false
      case PollerPrepareEnd(_, _, v, d) =>
        v == newest && d == DirectivePrepare && !Mid(tail) && Stream(tail, sent, newest)
      case PollerCommit(_, _, _) => !Mid(tail) && Stream(tail, sent, newest)
  }

  /** The newest version once the whole channel has been read. */
  function Newest(q: seq<Request>, newest: int): int {
    if q == [] then newest else Newest(q[1..], if q[0].PollerPrepare? then q[0].version else newest)
  }

  lemma {:induction false} StreamAppend(q: seq<Request>, more: seq<Request>, sent: map<int, Sent>, newest: int)
    requires Stream(q, sent, newest) && Stream(more, sent, Newest(q, newest)) && !Mid(more)
    ensures Stream(q + more, sent, newest) && Newest(q + more, newest) == Newest(more, Newest(q, newest))
    ensures Mid(q + more) == Mid(q) && Rest(q + more) == Rest(q)
  {
    if q == [] {
      assert q + more == more;
    } else {
      assert (q + more)[1..] == q[1..] + more;
      StreamAppend(q[1..], more, sent, if q[0].PollerPrepare? then q[0].version else newest);
    }
  }

  lemma {:induction false} StreamNewVersion(q: seq<Request>, sent: map<int, Sent>, newest: int, v: int, b: Sent)
    requires Stream(q, sent, newest) && v !in sent
    ensures Stream(q, sent[v := b], newest)
  {
    if q != [] {
      StreamNewVersion(q[1..], sent, if q[0].PollerPrepare? then q[0].version else newest, v, b);
    }
  }

  lemma {:induction false} BlockFramesStream(blocks: seq<seq<CheckIn>>, id: nat, end: Request, sent: map<int, Sent>, v: int)
    requires end.PollerPrepareEnd? && end.version == v && end.directive == DirectivePrepare
    ensures var q := BlockFrames(blocks, id, v) + [end];
            Mid(q) && Stream(q, sent, v) && Rest(q) == Flatten(blocks) && Newest(q, v) == v
  {
    var q := BlockFrames(blocks, id, v) + [end];
    if blocks == [] {
      assert q == [end] && q[1..] == [];
    } else {
      BlockFramesStream(blocks[1..], id + 1, end, sent, v);
      assert q[1..] == BlockFrames(blocks[1..], id + 1, v) + [end];
      FlattenHead(blocks);
    }
  }

  lemma TransmissionStream(id: nat, v: int, b: Sent, size: nat, sent: map<int, Sent>, newest: int)
    requires v in sent && sent[v] == b && b.id == id && newest < v
    ensures var q := Transmission(id, v, b.start, b.restart, size);
            !Mid(q) && Stream(q, sent, newest) && Newest(q, newest) == v
  {
    var q := Transmission(id, v, b.start, b.restart, size);
    var blocks := Blocks(Checks(b), size);
    var end := PollerPrepareEnd(id + 1 + |blocks|, "", v, DirectivePrepare);
    BlocksAreACutting(Checks(b), size);
    BlockFramesStream(blocks, id + 1, end, sent, v);
    assert q[0] == Source(v, b) && q[1..] == BlockFrames(blocks, id + 1, v) + [end];
  }

  // ---- the session against such a channel ----

  /** The session is receiving the transmission the channel starts in. */
  predicate Receiving(s: Session, q: seq<Request>, newest: int) {
    s.active.Some? && Mid(q) && s.active.value.version == newest
  }

  /** Message and timer are there exactly when needed; what is active is, or is becoming, complete. */
  ghost predicate SessionOk(s: Session, q: seq<Request>, sent: map<int, Sent>, newest: int) {
    && s.fault.None? && s.newestCommitted == 0 && newest >= 0
    && (s.active.None? ==> s.src.None? && s.timer.None? && !s.prepared)
    && (s.active.Some? ==>
          var p := s.active.value;
          && p.version in sent && 1 <= p.version <= newest
          && s.src == Some(Source(p.version, sent[p.version]))
          && (Receiving(s, q, newest) ==>
                && s.timer in {Some(Running), Some(Fired)}
                && AddDefinitions(p, Rest(q)) == FinalPrep(p.version, sent[p.version]))
          && (!Receiving(s, q, newest) ==>
                s.timer.None? && s.prepared && p == FinalPrep(p.version, sent[p.version])))
  }

  /** What one frame does to the session. */
  lemma SessionReadsFrame(s: Session, q: seq<Request>, sent: map<int, Sent>, newest: int, accepts: bool)
    requires q != [] && SessionOk(s, q, sent, newest) && Stream(q, sent, newest)
    ensures SessionOk(HandleFrame(s, q[0], accepts).next, q[1..], sent, if q[0].PollerPrepare? then q[0].version else newest)
  {
    var f, tail := q[0], q[1..];
    match f
    case PollerPrepare(_, _, v, _) =>
      ManifestDeclares(sent[v], "");
    case PollerPrepareBlock(_, _, _, block) =>
      if Receiving(s, q, newest) {
        DefineAllConcat(s.active.value.actions, block, Rest(tail));
      }
    case PollerPrepareEnd(_, _, _, _) =>
      if Receiving(s, q, newest) {
        assert AddDefinitions(s.active.value, []) == s.active.value;
        FinalValidates(newest, sent[newest]);
      }
    case PollerCommit(_, _, _) =>
  }

  lemma TimerIsReadOk(s: Session, q: seq<Request>, sent: map<int, Sent>, newest: int)
    requires SessionOk(s, q, sent, newest) && s.timer == Some(Fired)
    ensures SessionOk(HandleTimeout(s).next, q, sent, newest)
  {
  }

  /** Only a commit of the active version hands a preparation over, and only then is `committed` answered. */
  lemma SessionHandsOver(s: Session, q: seq<Request>, sent: map<int, Sent>, newest: int, accepts: bool)
    requires q != [] && SessionOk(s, q, sent, newest) && Stream(q, sent, newest)
    ensures var o := HandleFrame(s, q[0], accepts);
            if q[0].PollerCommit? && VersionApplies(s.active, q[0].version)
            then
              && o.handed == [s.active.value]
              && o.handed[0] == FinalPrep(q[0].version, sent[q[0].version])
              && o.replies == [Result(q[0].id, q[0].zoneId, q[0].version, Committed)]
            else o.handed == [] && forall r <- o.replies :: !IsCommitted(r)
  {
  }

  // ---- commit messages and their answers ----

  predicate IsCommit(f: Request) { f.PollerCommit? }

  predicate IsCommitted(r: Response) { r.Result? && r.status == Committed }

  predicate AwaitsCommit(a: Agent, id: nat, version: int) {
    id in a.pending && a.pending[id].committing && a.pending[id].version == version
  }

  /** Commits under way, from the answers the agent will read first to the commits the session will
      read last: known to the agent, under ids that increase all along. */
  ghost predicate CommitsOk(a: Agent, q: seq<Request>, r: seq<Response>) {
    && (forall i | 0 <= i < |q| && IsCommit(q[i]) :: AwaitsCommit(a, q[i].id, q[i].version) && q[i].id <= a.outMsgId)
    && (forall i | 0 <= i < |r| && IsCommitted(r[i]) :: AwaitsCommit(a, r[i].id, r[i].version))
    && (forall i, j | 0 <= i < j < |q| && IsCommit(q[i]) && IsCommit(q[j]) :: q[i].id < q[j].id)
    && (forall i, j | 0 <= i < j < |r| && IsCommitted(r[i]) && IsCommitted(r[j]) :: r[i].id < r[j].id)
    && (forall i, j | 0 <= i < |r| && 0 <= j < |q| && IsCommitted(r[i]) && IsCommit(q[j]) :: r[i].id < q[j].id)
  }

  lemma CommitsOkMoreFrames(a: Agent, a': Agent, q: seq<Request>, out: seq<Request>, r: seq<Response>)
    requires CommitsOk(a, q, r) && a'.outMsgId >= a.outMsgId
    requires forall k <- a.pending :: a.pending[k].committing ==> k in a'.pending && a'.pending[k] == a.pending[k]
    requires (forall f <- out :: !IsCommit(f))
             || (|out| == 1 && IsCommit(out[0]) && out[0].id == a.outMsgId + 1 == a'.outMsgId
                 && AwaitsCommit(a', out[0].id, out[0].version) && forall k <- a.pending :: k <= a.outMsgId)
    ensures CommitsOk(a', q + out, r)
  {
  }

  lemma CommitsOkFewerAnswers(a: Agent, q: seq<Request>, r: seq<Response>)
    requires CommitsOk(a, q, r) && r != []
    ensures CommitsOk(a, q, r[1..])
    ensures IsCommitted(r[0]) ==> CommitsOk(a.(pending := a.pending - {r[0].id}), q, r[1..])
  {
  }

  lemma CommitsOkFrameRead(a: Agent, q: seq<Request>, r: seq<Response>, more: seq<Response>)
    requires CommitsOk(a, q, r) && q != []
    requires (forall x <- more :: !IsCommitted(x))
             || (IsCommit(q[0]) && |more| == 1 && more[0].Result? && more[0].id == q[0].id && more[0].version == q[0].version)
    ensures CommitsOk(a, q[1..], r + more)
  {
  }

  lemma CommitsOkMoreAnswers(a: Agent, q: seq<Request>, r: seq<Response>, more: seq<Response>)
    requires CommitsOk(a, q, r) && forall x <- more :: !IsCommitted(x)
    ensures CommitsOk(a, q, r + more)
  {
  }

  // ---- the set the agent believes committed ----

  function SentIds(sent: map<int, Sent>, version: int): Option<set<string>> {
    if version in sent then Some(Ids(Checks(sent[version]))) else None
  }

  /** What the agent will believe once it has read every answer under way. */
  function Believed(now: Option<set<string>>, r: seq<Response>, sent: map<int, Sent>): Option<set<string>> {
    if r == [] then now
    else if IsCommitted(r[|r| - 1]) then SentIds(sent, r[|r| - 1].version)
    else Believed(now, r[..|r| - 1], sent)
  }

  lemma {:induction false} BelievedHead(now: Option<set<string>>, r: seq<Response>, sent: map<int, Sent>)
    requires r != []
    ensures Believed(now, r, sent)
         == Believed(if IsCommitted(r[0]) then SentIds(sent, r[0].version) else now, r[1..], sent)
  {
    var n := |r| - 1;
    if n > 0 && !IsCommitted(r[n]) {
      BelievedHead(now, r[..n], sent);
      assert r[1..][..n - 1] == r[..n][1..];
    }
  }

  lemma {:induction false} BelievedQuiet(now: Option<set<string>>, r: seq<Response>, more: seq<Response>, sent: map<int, Sent>)
    requires forall x <- more :: !IsCommitted(x)
    ensures Believed(now, r + more, sent) == Believed(now, r, sent)
  {
    if more == [] {
      assert r + more == r;
    } else {
      var n := |more| - 1;
      assert (r + more)[..|r + more| - 1] == r + more[..n];
      BelievedQuiet(now, r, more[..n], sent);
    }
  }

  lemma {:induction false} BelievedNewVersion(now: Option<set<string>>, r: seq<Response>, sent: map<int, Sent>, v: int, b: Sent)
    requires v !in sent && forall i | 0 <= i < |r| && IsCommitted(r[i]) :: r[i].version in sent
    ensures Believed(now, r, sent[v := b]) == Believed(now, r, sent)
  {
    if r != [] {
      BelievedNewVersion(now, r[..|r| - 1], sent, v, b);
    }
  }

  // ---- the invariant ----

  ghost predicate AgentOk(a: Agent, sent: map<int, Sent>) {
    && (forall v :: v in sent <==> 1 <= v <= a.checksVersion)
    && (forall k <- a.pending ::
          && k <= a.outMsgId
          && a.pending[k].version in sent
          && a.pending[k].checkIds == CheckIds(Checks(sent[a.pending[k].version])))
    && (forall v <- sent :: forall c <- Checks(sent[v]) :: Parses(c))
  }

  ghost predicate HistoryOk(h: History, s: Session) {
    && (forall i, j | 0 <= i < j < |h.handed| :: h.handed[i].version < h.handed[j].version)
    && (forall p <- h.handed ::
          p.version in h.sent && p == FinalPrep(p.version, h.sent[p.version]) && p in h.prepared && p.version <= h.newest)
    && (s.active.Some? ==> forall p <- h.handed :: p.version < s.active.value.version)
  }

  /** A settled preparation was answered `prepared` as it is now. */
  ghost predicate AnsweredOk(h: History, s: Session, q: seq<Request>) {
    s.active.Some? && !Receiving(s, q, h.newest) ==> s.active.value in h.prepared
  }

  function LastSent(h: History): Option<set<string>> {
    if h.handed == [] then None else SentIds(h.sent, h.handed[|h.handed| - 1].version)
  }

  function DefsAfter(handed: seq<Prep>, sent: map<int, Sent>): map<string, CheckIn> {
    if handed == [] || handed[|handed| - 1].version !in sent then map[]
    else Wanted(sent[handed[|handed| - 1].version])
  }

  /** A zone still has to reconcile the newest preparations and runs what the ones before asked for. */
  ghost predicate ZoneOk(z: Zone, h: History) {
    var done := |h.handed| - |z.queue|;
    && 0 <= done
    && z.queue == h.handed[done..]
    && z.defs == DefsAfter(h.handed[..done], h.sent)
  }

  ghost predicate Inv(s: System) {
    && AgentOk(s.agent, s.history.sent)
    && Stream(s.toPoller, s.history.sent, s.history.newest)
    && Newest(s.toPoller, s.history.newest) <= s.agent.checksVersion
    && SessionOk(s.session, s.toPoller, s.history.sent, s.history.newest)
    && CommitsOk(s.agent, s.toPoller, s.toAgent)
    && HistoryOk(s.history, s.session)
    && AnsweredOk(s.history, s.session, s.toPoller)
    && Believed(s.agent.committedChecks, s.toAgent, s.history.sent) == LastSent(s.history)
    && (forall z <- s.zones :: ZoneOk(s.zones[z], s.history))
  }

  lemma InitialInv(blockSize: nat, zoneIds: set<string>)
    ensures Inv(Initial(blockSize, zoneIds))
  {
    hide ZoneOk;
    InitialZone();
  }

  lemma InitialZone()
    ensures ZoneOk(Zone([], map[]), History(map[], 0, [], []))
  {
  }

  lemma TransmitKeepsInv(s: System, start: seq<CheckIn>, restart: seq<CheckIn>)
    requires Inv(s) && forall c <- start + restart :: Parses(c)
    ensures Inv(Apply(s, Transmit(start, restart)))
  {
    hide Stream, Rest, CommitsOk, HistoryOk, SessionOk, ZoneOk, Believed, LastSent, Parses;
    var (a, out) := PrepareChecks(s.agent, start, restart);
    var h, v, b := s.history, a.checksVersion, Sent(s.agent.outMsgId + 1, start, restart);
    var sent' := h.sent[v := b];
    assert v !in h.sent;
    assert Stream(s.toPoller + out, sent', h.newest) && Newest(s.toPoller + out, h.newest) == v
           && Mid(s.toPoller + out) == Mid(s.toPoller) && Rest(s.toPoller + out) == Rest(s.toPoller) by {
      StreamNewVersion(s.toPoller, h.sent, h.newest, v, b);
      TransmissionStream(b.id, v, b, s.agent.blockSize, sent', Newest(s.toPoller, h.newest));
      StreamAppend(s.toPoller, out, sent', h.newest);
    }
    assert CommitsOk(a, s.toPoller + out, s.toAgent) by {
      TransmissionShape(b.id, v, start, restart, s.agent.blockSize);
      CommitsOkMoreFrames(s.agent, a, s.toPoller, out, s.toAgent);
    }
    assert Believed(a.committedChecks, s.toAgent, sent') == Believed(s.agent.committedChecks, s.toAgent, h.sent) by {
      AnswersSent(s.agent, s.toPoller, s.toAgent, h.sent);
      BelievedNewVersion(s.agent.committedChecks, s.toAgent, h.sent, v, b);
    }
    TransmitKeepsAgent(s.agent, h.sent, start, restart);
    HistoryNewVersion(h, s.session, v, b);
    forall z | z in s.zones ensures ZoneOk(s.zones[z], h.(sent := sent')) {
      ZoneNewVersion(s.zones[z], h, s.session, v, b);
    }
    SessionNewVersion(s.session, s.toPoller, s.toPoller + out, h.sent, h.newest, v, b);
  }

  lemma AnswersSent(a: Agent, q: seq<Request>, r: seq<Response>, sent: map<int, Sent>)
    requires AgentOk(a, sent) && CommitsOk(a, q, r)
    ensures forall i | 0 <= i < |r| && IsCommitted(r[i]) :: r[i].version in sent
  {
  }

  lemma TransmitKeepsAgent(a: Agent, sent: map<int, Sent>, start: seq<CheckIn>, restart: seq<CheckIn>)
    requires AgentOk(a, sent) && forall c <- start + restart :: Parses(c)
    ensures var a' := PrepareChecks(a, start, restart).0;
            AgentOk(a', sent[a'.checksVersion := Sent(a.outMsgId + 1, start, restart)])
  {
  }

  lemma HistoryNewVersion(h: History, s: Session, v: int, b: Sent)
    requires v !in h.sent && HistoryOk(h, s)
    ensures var h' := h.(sent := h.sent[v := b]);
            HistoryOk(h', s) && LastSent(h') == LastSent(h)
  {
  }

  lemma ZoneNewVersion(z: Zone, h: History, s: Session, v: int, b: Sent)
    requires v !in h.sent && HistoryOk(h, s) && ZoneOk(z, h)
    ensures ZoneOk(z, h.(sent := h.sent[v := b]))
  {
    hide FinalPrep, Wanted;
    var done := |h.handed| - |z.queue|;
    if done > 0 {
      var last := h.handed[..done][done - 1];
      assert last == h.handed[done - 1] && last in h.handed;
      assert last.version in h.sent;
    }
  }

  lemma SessionNewVersion(s: Session, q: seq<Request>, q': seq<Request>, sent: map<int, Sent>, newest: int, v: int, b: Sent)
    requires SessionOk(s, q, sent, newest) && v !in sent
    requires Mid(q') == Mid(q) && Rest(q') == Rest(q)
    ensures SessionOk(s, q', sent[v := b], newest)
  {
  }

  lemma SessionSameFront(s: Session, q: seq<Request>, q': seq<Request>, sent: map<int, Sent>, newest: int)
    requires SessionOk(s, q, sent, newest) && Mid(q') == Mid(q) && Rest(q') == Rest(q)
    ensures SessionOk(s, q', sent, newest)
  {
  }

  lemma AgentFramesStream(a: Agent, r: Response, sent: map<int, Sent>, newest: int)
    ensures var out := Receive(a, r).1;
            !Mid(out) && Stream(out, sent, newest) && Newest(out, newest) == newest
  {
    var out := Receive(a, r).1;
    if out != [] {
      assert out[1..] == [] && Newest(out, newest) == Newest(out[1..], newest);
    }
  }

  lemma AgentReadsBelief(a: Agent, q: seq<Request>, r: seq<Response>, sent: map<int, Sent>)
    requires AgentOk(a, sent) && CommitsOk(a, q, r) && r != []
    ensures Believed(Receive(a, r[0]).0.committedChecks, r[1..], sent) == Believed(a.committedChecks, r, sent)
  {
    BelievedHead(a.committedChecks, r, sent);
    if IsCommitted(r[0]) {
      assert AwaitsCommit(a, r[0].id, r[0].version);
      SetOfCheckIds(Checks(sent[r[0].version]));
    }
  }

  lemma AgentReadsKeepsInv(s: System)
    requires Inv(s) && s.toAgent != []
    ensures Inv(Apply(s, AgentReads))
  {
    hide HistoryOk, SessionOk, ZoneOk, LastSent, Stream, Newest, AgentOk, CommitsOk, Believed, Receive, Rest;
    var r, h := s.toAgent[0], s.history;
    var (a, out) := Receive(s.agent, r);
    AgentFramesStream(s.agent, r, h.sent, Newest(s.toPoller, h.newest));
    StreamAppend(s.toPoller, out, h.sent, h.newest);
    SessionSameFront(s.session, s.toPoller, s.toPoller + out, h.sent, h.newest);
    AgentReadsBelief(s.agent, s.toPoller, s.toAgent, h.sent);
    AgentReadsCommits(s.agent, s.toPoller, s.toAgent, h.sent);
    AgentReadsAgent(s.agent, r, h.sent);
  }

  lemma SetOfCheckIds(checks: seq<CheckIn>)
    ensures SetOf(CheckIds(checks)) == Ids(checks)
  {
    forall x | x in Ids(checks) ensures x in SetOf(CheckIds(checks)) {
      var i :| 0 <= i < |checks| && checks[i].id == x;
      assert CheckIds(checks)[i] == x;
    }
  }

  lemma AgentReadsAgent(a: Agent, r: Response, sent: map<int, Sent>)
    requires AgentOk(a, sent)
    ensures AgentOk(Receive(a, r).0, sent) && Receive(a, r).0.checksVersion == a.checksVersion
  {
  }

  lemma AgentReadsCommits(a: Agent, q: seq<Request>, r: seq<Response>, sent: map<int, Sent>)
    requires AgentOk(a, sent) && CommitsOk(a, q, r) && r != []
    ensures var (a', out) := Receive(a, r[0]);
            CommitsOk(a', q + out, r[1..])
  {
    var (a', out) := Receive(a, r[0]);
    CommitsOkFewerAnswers(a, q, r);
    if IsCommitted(r[0]) {
      assert q + out == q;
    } else {
      CommitsOkMoreFrames(a, a', q, out, r[1..]);
    }
  }

  lemma SessionReadsKeepsInv(s: System, accepts: bool)
    requires Inv(s) && s.toPoller != []
    ensures Inv(Apply(s, SessionReads(accepts)))
  {
    hide HistoryOk, SessionOk, ZoneOk, LastSent, CommitsOk, AnsweredOk, Believed, HandlePrepare, HandleEnd, HandleBlock, HandleCommit;
    var f, q, h := s.toPoller[0], s.toPoller, s.history;
    var o := HandleFrame(s.session, f, accepts);
    SessionReadsFrame(s.session, q, h.sent, h.newest, accepts);
    SessionHandsOver(s.session, q, h.sent, h.newest, accepts);
    CommitsOkFrameRead(s.agent, q, s.toAgent, o.replies);
    SessionReadsHistory(s.session, q, h, accepts);
    SessionReadsAnswered(s.session, q, h, accepts);
    SessionReadsBelief(s.agent.committedChecks, s.session, q, s.toAgent, h, accepts);
    forall z | z in s.zones ensures ZoneOk(s.zones[z].(queue := s.zones[z].queue + o.handed), Record(h, f, o)) {
      PushKeepsZone(s.zones[z], h, Record(h, f, o), o.handed);
    }
  }

  lemma SessionReadsHistory(s: Session, q: seq<Request>, h: History, accepts: bool)
    requires q != [] && SessionOk(s, q, h.sent, h.newest) && Stream(q, h.sent, h.newest)
    requires HistoryOk(h, s) && AnsweredOk(h, s, q)
    ensures var o := HandleFrame(s, q[0], accepts);
            HistoryOk(Record(h, q[0], o), o.next)
  {
    hide HandleFrame;
    SessionHandsOver(s, q, h.sent, h.newest, accepts);
    FrameHandsOrHolds(s, q[0], accepts);
  }

  lemma SessionReadsAnswered(s: Session, q: seq<Request>, h: History, accepts: bool)
    requires q != [] && SessionOk(s, q, h.sent, h.newest) && Stream(q, h.sent, h.newest) && AnsweredOk(h, s, q)
    ensures var o := HandleFrame(s, q[0], accepts);
            AnsweredOk(Record(h, q[0], o), o.next, q[1..])
  {
    if q[0].PollerPrepareEnd? && Receiving(s, q, h.newest) {
      assert AddDefinitions(s.active.value, []) == s.active.value;
      FinalValidates(h.newest, h.sent[h.newest]);
    }
  }

  lemma SessionReadsBelief(now: Option<set<string>>, s: Session, q: seq<Request>, r: seq<Response>, h: History, accepts: bool)
    requires q != [] && SessionOk(s, q, h.sent, h.newest) && Stream(q, h.sent, h.newest)
    requires Believed(now, r, h.sent) == LastSent(h)
    ensures var o := HandleFrame(s, q[0], accepts);
            Believed(now, r + o.replies, h.sent) == LastSent(Record(h, q[0], o))
  {
    hide HandleFrame;
    var o := HandleFrame(s, q[0], accepts);
    SessionHandsOver(s, q, h.sent, h.newest, accepts);
    if o.handed == [] {
      BelievedQuiet(now, r, o.replies, h.sent);
      assert h.handed + o.handed == h.handed;
    }
  }

  lemma PushKeepsZone(z: Zone, h: History, h': History, ps: seq<Prep>)
    requires ZoneOk(z, h) && h'.sent == h.sent && h'.handed == h.handed + ps
    ensures ZoneOk(z.(queue := z.queue + ps), h')
  {
    var done := |h.handed| - |z.queue|;
    assert h'.handed[..done] == h.handed[..done];
    assert h'.handed[done..] == h.handed[done..] + ps;
  }

  lemma TimerKeepsInv(s: System, step: Step)
    requires Inv(s) && (step == TimerFires || step == TimerIsRead)
    ensures Inv(Apply(s, step))
  {
    var h := s.history;
    if step == TimerIsRead && s.session.timer == Some(Fired) {
      var o := HandleTimeout(s.session);
      TimerIsReadOk(s.session, s.toPoller, h.sent, h.newest);
      CommitsOkMoreAnswers(s.agent, s.toPoller, s.toAgent, o.replies);
      BelievedQuiet(s.agent.committedChecks, s.toAgent, o.replies, h.sent);
    }
  }

  lemma ZoneKeepsInv(s: System, zone: string)
    requires Inv(s)
    ensures Inv(Apply(s, ZoneReconciles(zone)))
  {
    if zone in s.zones && s.zones[zone].queue != [] {
      NextInZone(s.zones[zone], s.history, s.agent, s.session);
      ReconcileKeepsZone(s.zones[zone], s.history);
    }
  }

  ghost predicate Buildable(h: History, p: Prep) {
    && p.version in h.sent && p == FinalPrep(p.version, h.sent[p.version])
    && forall c <- Checks(h.sent[p.version]) :: Parses(c)
  }

  lemma NextInZone(z: Zone, h: History, a: Agent, s: Session)
    requires ZoneOk(z, h) && HistoryOk(h, s) && AgentOk(a, h.sent) && z.queue != []
    ensures Buildable(h, z.queue[0])
  {
    var done := |h.handed| - |z.queue|;
    assert h.handed[done] in h.handed && z.queue[0] == h.handed[done];
  }

  lemma ReconcileKeepsZone(z: Zone, h: History)
    requires ZoneOk(z, h) && z.queue != [] && Buildable(h, z.queue[0])
    ensures ZoneOk(Zone(z.queue[1..], ReconcileDefs(z.defs, z.queue[0])), h)
  {
    hide FinalPrep, ReconcileDefs, Wanted, Parses;
    var done := |h.handed| - |z.queue|;
    var p := z.queue[0];
    assert p == h.handed[done] == h.handed[..done + 1][done];
    ReconcileFinal(z.defs, p.version, h.sent[p.version]);
    assert z.queue[1..] == h.handed[done + 1..];
  }

  lemma StepKeepsInv(s: System, step: Step)
    requires Inv(s)
    ensures Inv(Apply(s, step))
  {
    match step
    case Transmit(start, restart) =>
      if forall c <- start + restart :: Parses(c) {
        TransmitKeepsInv(s, start, restart);
      }
    case AgentReads =>
      if s.toAgent != [] {
        AgentReadsKeepsInv(s);
      }
    case SessionReads(accepts) =>
      if s.toPoller != [] {
        SessionReadsKeepsInv(s, accepts);
      }
    case TimerFires => TimerKeepsInv(s, step);
    case TimerIsRead => TimerKeepsInv(s, step);
    case ZoneReconciles(zone) => ZoneKeepsInv(s, zone);
  }

  lemma {:induction false} RunInv(blockSize: nat, zoneIds: set<string>, steps: seq<Step>)
    ensures Inv(Run(blockSize, zoneIds, steps))
  {
    if |steps| == 0 {
      InitialInv(blockSize, zoneIds);
    } else {
      RunInv(blockSize, zoneIds, steps[..|steps| - 1]);
      StepKeepsInv(Run(blockSize, zoneIds, steps[..|steps| - 1]), steps[|steps| - 1]);
    }
  }

  // ---- the theorems ----

  predicate Quiescent(s: System) {
    && s.toPoller == [] && s.toAgent == []
    && forall z <- s.zones :: s.zones[z].queue == []
  }

  /** Agreement. Whenever nothing is under way, the agent's committed ids are those of the last preparation
      the session committed, and every scheduler runs exactly the definitions sent under its version. */
  lemma Agreement(blockSize: nat, zoneIds: set<string>, steps: seq<Step>)
    ensures var s := Run(blockSize, zoneIds, steps);
            Quiescent(s) ==>
              if s.history.handed == [] then
                s.agent.committedChecks == None && forall z <- s.zones :: s.zones[z].defs == map[]
              else
                var p := s.history.handed[|s.history.handed| - 1];
                && p.version in s.history.sent
                && s.agent.committedChecks == Some(p.actions.Keys)
                && forall z <- s.zones ::
                     s.zones[z].defs == Wanted(s.history.sent[p.version]) && s.zones[z].defs.Keys == p.actions.Keys
  {
    hide Stream, SessionOk, CommitsOk, AgentOk, AnsweredOk, Run, FinalPrep, Wanted, Newest;
    var s := Run(blockSize, zoneIds, steps);
    RunInv(blockSize, zoneIds, steps);
    var h := s.history;
    if Quiescent(s) {
      assert h.handed[..|h.handed|] == h.handed;
      forall z | z in s.zones ensures s.zones[z].defs == DefsAfter(h.handed, h.sent) {
        assert ZoneOk(s.zones[z], h);
      }
      if h.handed != [] {
        var p := h.handed[|h.handed| - 1];
        assert p in h.handed;
        FinalValidates(p.version, h.sent[p.version]);
      }
    }
  }

  /** Two-phase safety. Everything handed to the schedulers was found valid, was answered `prepared` in
      exactly this state, and is what was sent: although a commit does not look at the `prepared` flag. */
  lemma TwoPhaseSafety(blockSize: nat, zoneIds: set<string>, steps: seq<Step>)
    ensures var h := Run(blockSize, zoneIds, steps).history;
            forall p <- h.handed ::
              && Validates(p, p.version)
              && p in h.prepared
              && p.version in h.sent && p == FinalPrep(p.version, h.sent[p.version])
  {
    RunInv(blockSize, zoneIds, steps);
    var h := Run(blockSize, zoneIds, steps).history;
    forall p | p in h.handed ensures Validates(p, p.version) {
      FinalValidates(p.version, h.sent[p.version]);
    }
  }

  /** Versions are committed in increasing order and none twice. */
  lemma CommittedVersionsIncrease(blockSize: nat, zoneIds: set<string>, steps: seq<Step>)
    ensures var h := Run(blockSize, zoneIds, steps).history;
            forall i, j | 0 <= i < j < |h.handed| :: h.handed[i].version < h.handed[j].version
  {
    RunInv(blockSize, zoneIds, steps);
  }

  /** No preparation that waits for a scheduler crashes it: an agent has built everything it sends. */
  lemma SchedulersNeverCrash(blockSize: nat, zoneIds: set<string>, steps: seq<Step>, z: string)
    ensures var s := Run(blockSize, zoneIds, steps);
            z in s.zones ==> forall p <- s.zones[z].queue :: WellFormed(p) && !Crashes(p)
  {
    hide Run, Crashes, Parses;
    var s := Run(blockSize, zoneIds, steps);
    var h := s.history;
    RunInv(blockSize, zoneIds, steps);
    if z in s.zones {
      assert ZoneOk(s.zones[z], h) && AgentOk(s.agent, h.sent) && HistoryOk(h, s.session);
      forall p | p in s.zones[z].queue ensures WellFormed(p) && !Crashes(p) {
        assert p in h.handed;
        BuiltNeverCrashes(p.version, h.sent[p.version]);
      }
    }
  }

  lemma BuiltNeverCrashes(version: int, b: Sent)
    requires forall c <- Checks(b) :: Parses(c)
    ensures WellFormed(FinalPrep(version, b)) && !Crashes(FinalPrep(version, b))
  {
    FinalValidates(version, b);
    FinalCrashesIff(version, b);
  }

  /** The session never answers a message it does not have, never uses a timer it does not have, and never
      waits on a timer that has been read; its message and its preparation come and go together. */
  lemma SessionNeverFaults(blockSize: nat, zoneIds: set<string>, steps: seq<Step>)
    ensures var s := Run(blockSize, zoneIds, steps);
            && s.session.fault.None?
            && (s.session.active.None? <==> s.session.src.None?)
            && (s.session.active.Some? ==>
                  var p := s.session.active.value;
                  p.version in s.history.sent && s.session.src == Some(Source(p.version, s.history.sent[p.version])))
            && (s.session.prepared || s.session.timer.Some? ==> s.session.active.Some?)
            && (Receiving(s.session, s.toPoller, s.history.newest) ==> s.session.timer in {Some(Running), Some(Fired)})
  {
    RunInv(blockSize, zoneIds, steps);
  }
}
