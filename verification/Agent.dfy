/** The endpoint's side of a preparation: versions, message ids, transmission, and commit on `prepared`. */
module Agents {
  import opened Protocol
  import opened ChecksPreparations

  datatype Pending = Pending(version: nat, checkIds: seq<string>, committing: bool)

  datatype Agent = Agent(
    blockSize: nat,
    outMsgId: nat,
    checksVersion: nat,
    committedChecks: Option<set<string>>,
    pending: map<nat, Pending>)

  function NewAgent(blockSize: nat): Agent { Agent(blockSize, 0, 0, None, map[]) }

  function ManifestEntryOf(c: CheckIn, action: Action): ManifestEntry {
    ManifestEntry(action, c.id, c.checkType, c.entityId, c.zoneId)
  }

  function ManifestOf(start: seq<CheckIn>, restart: seq<CheckIn>): seq<ManifestEntry> {
    seq(|start|, i requires 0 <= i < |start| => ManifestEntryOf(start[i], Start))
    + seq(|restart|, i requires 0 <= i < |restart| => ManifestEntryOf(restart[i], Restart))
  }

  function CheckIds(checks: seq<CheckIn>): (ids: seq<string>)
    ensures |ids| == |checks| && forall i | 0 <= i < |ids| :: ids[i] == checks[i].id
  {
    seq(|checks|, i requires 0 <= i < |checks| => checks[i].id)
  }

  function SetOf<T>(s: seq<T>): set<T> { set x <- s }

  // ---- cutting definitions into blocks ----

  /** The blocks completed so far, and the one being filled. */
  datatype Cutting = Cutting(full: seq<seq<CheckIn>>, filling: seq<CheckIn>)

  function Cut(checks: seq<CheckIn>, size: nat): Cutting {
    if |checks| == 0 then Cutting([], [])
    else
      var c := Cut(checks[..|checks| - 1], size);
      var filling := c.filling + [checks[|checks| - 1]];
      if |filling| >= size then Cutting(c.full + [filling], []) else Cutting(c.full, filling)
  }

  function Blocks(checks: seq<CheckIn>, size: nat): seq<seq<CheckIn>> {
    var c := Cut(checks, size);
    if c.filling == [] then c.full else c.full + [c.filling]
  }

  function Capacity(size: nat): nat { if size == 0 then 1 else size }

  /** A cutting of `checks`: in order, no block empty or too long, only the last may be short. */
  ghost predicate IsCutting(blocks: seq<seq<CheckIn>>, checks: seq<CheckIn>, size: nat) {
    && Flatten(blocks) == checks
    && (forall i | 0 <= i < |blocks| :: 1 <= |blocks[i]| <= Capacity(size))
    && (forall i | 0 <= i < |blocks| - 1 :: |blocks[i]| == Capacity(size))
  }

  ghost predicate CutsSoFar(c: Cutting, checks: seq<CheckIn>, size: nat) {
    && Flatten(c.full) + c.filling == checks
    && |c.filling| < Capacity(size)
    && forall i | 0 <= i < |c.full| :: |c.full[i]| == Capacity(size)
  }

  lemma {:induction false} CutKeeps(checks: seq<CheckIn>, size: nat)
    ensures CutsSoFar(Cut(checks, size), checks, size)
  {
    if |checks| > 0 {
      var n := |checks| - 1;
      CutKeeps(checks[..n], size);
      var c := Cut(checks[..n], size);
      assert checks == checks[..n] + [checks[n]];
      CutOneMore(c, checks[..n], checks[n], size);
    }
  }

  lemma CutOneMore(c: Cutting, checks: seq<CheckIn>, next: CheckIn, size: nat)
    requires CutsSoFar(c, checks, size)
    ensures var filling := c.filling + [next];
            if |filling| >= size then CutsSoFar(Cutting(c.full + [filling], []), checks + [next], size)
            else CutsSoFar(Cutting(c.full, filling), checks + [next], size)
  {
    var filling := c.filling + [next];
    assert (c.full + [filling])[..|c.full|] == c.full;
    assert Flatten(c.full) + filling == checks + [next];
  }

  /** Transmission cuts correctly. */
  lemma BlocksAreACutting(checks: seq<CheckIn>, size: nat)
    ensures IsCutting(Blocks(checks, size), checks, size)
  {
    CutKeeps(checks, size);
    var c := Cut(checks, size);
    assert (c.full + [c.filling])[..|c.full|] == c.full;
  }

  /** There is only one way to cut, so the predicate determines what is sent. */
  lemma {:induction false} CuttingIsUnique(a: seq<seq<CheckIn>>, b: seq<seq<CheckIn>>, checks: seq<CheckIn>, size: nat)
    requires IsCutting(a, checks, size) && IsCutting(b, checks, size)
    ensures a == b
    decreases |a|
  {
    if |a| == 0 {
    } else if |b| > 0 {
      FlattenHead(a);
      FlattenHead(b);
      var rest := checks[|a[0]|..];
      if |a| == 1 {
        assert a[1..] == [] && Flatten(a[1..]) == [];
      }
      if |b| == 1 {
        assert b[1..] == [] && Flatten(b[1..]) == [];
      }
      assert |a[0]| == |b[0]|;
      assert a[0] == checks[..|a[0]|] == b[0];
      assert Flatten(a[1..]) == rest && Flatten(b[1..]) == rest;
      CuttingIsUnique(a[1..], b[1..], rest, size);
      assert a == [a[0]] + a[1..] && b == [b[0]] + b[1..];
    }
  }

  lemma FlattenHead<T>(a: seq<seq<T>>)
    requires |a| > 0
    ensures Flatten(a) == a[0] + Flatten(a[1..])
  {
    assert a == [a[0]] + a[1..];
    FlattenConcat([a[0]], a[1..]);
    assert [a[0]][..0] == [];
    assert Flatten([a[0]]) == Flatten([a[0]][..0]) + a[0] == a[0];
  }

  // ---- transmission ----

  function BlockFrames(blocks: seq<seq<CheckIn>>, firstId: nat, version: int): seq<Request> {
    seq(|blocks|, i requires 0 <= i < |blocks| => PollerPrepareBlock(firstId + i, "", version, blocks[i]))
  }

  /** Everything sent for one preparation. */
  function Transmission(firstId: nat, version: int, start: seq<CheckIn>, restart: seq<CheckIn>, size: nat): seq<Request> {
    var blocks := Blocks(start + restart, size);
    [PollerPrepare(firstId, "", version, ManifestOf(start, restart))]
    + BlockFrames(blocks, firstId + 1, version)
    + [PollerPrepareEnd(firstId + 1 + |blocks|, "", version, DirectivePrepare)]
  }

  function PrepareChecks(a: Agent, start: seq<CheckIn>, restart: seq<CheckIn>): (Agent, seq<Request>) {
    var version := a.checksVersion + 1;
    var frames := Transmission(a.outMsgId + 1, version, start, restart, a.blockSize);
    (a.(checksVersion := version,
        outMsgId := a.outMsgId + |frames|,
        pending := a.pending[a.outMsgId + 1 := Pending(version, CheckIds(start + restart), false)]),
     frames)
  }

  /** A response is matched by id alone; what it is a response to is decided by the pending entry. */
  function Receive(a: Agent, r: Response): (Agent, seq<Request>) {
    if r.id !in a.pending || r.Undecodable? then (a, [])
    else
      var p := a.pending[r.id];
      if p.committing then
        (if r.status == Committed
         then a.(committedChecks := Some(SetOf(p.checkIds)), pending := a.pending - {r.id})
         else a, [])
      else if r.status == Prepared then
        (a.(outMsgId := a.outMsgId + 1,
            pending := (a.pending - {r.id})[a.outMsgId + 1 := p.(committing := true)]),
         [PollerCommit(a.outMsgId + 1, "", p.version)])
      else
        (a.(pending := a.pending - {r.id}), [])
  }

  // ---- robustness: the agent against any stream of responses ----

  datatype AgentEvent = Bundle(start: seq<CheckIn>, restart: seq<CheckIn>) | Reply(r: Response)

  /** The agent with the messages it has sent and the replies it has seen, oldest first. */
  datatype AgentRun = AgentRun(agent: Agent, sent: seq<Request>, seen: seq<Response>)

  function AgentStep(run: AgentRun, e: AgentEvent): AgentRun {
    match e
    case Bundle(start, restart) =>
      var (a, out) := PrepareChecks(run.agent, start, restart);
      AgentRun(a, run.sent + out, run.seen)
    case Reply(r) =>
      var (a, out) := Receive(run.agent, r);
      AgentRun(a, run.sent + out, run.seen + [r])
  }

  function RunAgent(blockSize: nat, events: seq<AgentEvent>): AgentRun {
    if |events| == 0 then AgentRun(NewAgent(blockSize), [], [])
    else AgentStep(RunAgent(blockSize, events[..|events| - 1]), events[|events| - 1])
  }

  ghost predicate SentPrepare(sent: seq<Request>, id: nat, version: int) {
    exists i | 0 <= i < |sent| :: sent[i].PollerPrepare? && sent[i].id == id && sent[i].version == version
  }

  ghost predicate SentCommit(sent: seq<Request>, id: nat, version: int) {
    exists i | 0 <= i < |sent| :: sent[i].PollerCommit? && sent[i].id == id && sent[i].version == version
  }

  ghost predicate SawPrepared(seen: seq<Response>, id: nat) {
    exists i | 0 <= i < |seen| :: seen[i].Result? && seen[i].id == id && seen[i].status == Prepared
  }

  ghost predicate Acknowledged(sent: seq<Request>, seen: seq<Response>, version: int) {
    exists id: nat :: SentPrepare(sent, id, version) && SawPrepared(seen, id)
  }

  /** Ids grow along what was sent; neither ids nor versions run ahead of the counters. */
  ghost predicate Numbered(a: Agent, sent: seq<Request>) {
    && (forall i | 0 <= i < |sent| :: 1 <= sent[i].id <= a.outMsgId && 1 <= sent[i].version <= a.checksVersion)
    && (forall i, j | 0 <= i < j < |sent| :: sent[i].id < sent[j].id)
  }

  /** No version is prepared twice and none is committed twice. */
  ghost predicate AtMostOnce(sent: seq<Request>) {
    && (forall i, j | 0 <= i < j < |sent| && sent[i].PollerPrepare? && sent[j].PollerPrepare? ::
          sent[i].version != sent[j].version)
    && (forall i, j | 0 <= i < j < |sent| && sent[i].PollerCommit? && sent[j].PollerCommit? ::
          sent[i].version != sent[j].version)
  }

  /** A version is committed only after a `prepared` reply bearing the id of its prepare message. */
  ghost predicate Justified(sent: seq<Request>, seen: seq<Response>) {
    forall i | 0 <= i < |sent| && sent[i].PollerCommit? :: Acknowledged(sent, seen, sent[i].version)
  }

  /** What the pending table says was really sent, with one entry per version. */
  ghost predicate Tracked(a: Agent, sent: seq<Request>) {
    && (forall k <- a.pending ::
          && 1 <= k <= a.outMsgId
          && 1 <= a.pending[k].version <= a.checksVersion
          && (a.pending[k].committing ==> SentCommit(sent, k, a.pending[k].version))
          && (!a.pending[k].committing ==> SentPrepare(sent, k, a.pending[k].version)))
    && (forall k, l | k in a.pending && l in a.pending && k != l :: a.pending[k].version != a.pending[l].version)
    && (forall k, i | k in a.pending && !a.pending[k].committing && 0 <= i < |sent| && sent[i].PollerCommit? ::
          sent[i].version != a.pending[k].version)
  }

  ghost predicate AgentInv(run: AgentRun) {
    && Numbered(run.agent, run.sent)
    && AtMostOnce(run.sent)
    && Justified(run.sent, run.seen)
    && Tracked(run.agent, run.sent)
  }

  /** Whatever responses arrive, in whatever order, however often. */
  lemma {:induction false} AgentRobust(blockSize: nat, events: seq<AgentEvent>)
    ensures AgentInv(RunAgent(blockSize, events))
  {
    hide AgentInv, AgentStep;
    if |events| == 0 {
      EmptyInv(blockSize);
    } else {
      var n := |events| - 1;
      AgentRobust(blockSize, events[..n]);
      var run := RunAgent(blockSize, events[..n]);
      match events[n]
      case Bundle(start, restart) => BundleStepKeepsInv(run, start, restart);
      case Reply(r) => ReplyKeepsInv(run, r);
    }
  }

  lemma EmptyInv(blockSize: nat)
    ensures AgentInv(AgentRun(NewAgent(blockSize), [], []))
  {
  }

  lemma BundleStepKeepsInv(run: AgentRun, start: seq<CheckIn>, restart: seq<CheckIn>)
    requires AgentInv(run)
    ensures AgentInv(AgentStep(run, Bundle(start, restart)))
  {
    hide AgentInv, Transmission, Transmits;
    var (a', out) := PrepareChecks(run.agent, start, restart);
    TransmissionShape(run.agent.outMsgId + 1, run.agent.checksVersion + 1, start, restart, run.agent.blockSize);
    BundleKeepsInv(run, a', out);
  }

  /** A transmission: numbered on from `firstId`, headed by the only prepare, without a commit. */
  ghost predicate Transmits(out: seq<Request>, firstId: nat, version: int) {
    && |out| > 0
    && (forall i | 0 <= i < |out| :: out[i].id == firstId + i && out[i].version == version && !out[i].PollerCommit?)
    && (forall i | 0 <= i < |out| :: out[i].PollerPrepare? <==> i == 0)
  }

  lemma TransmissionShape(firstId: nat, version: int, start: seq<CheckIn>, restart: seq<CheckIn>, size: nat)
    ensures Transmits(Transmission(firstId, version, start, restart, size), firstId, version)
  {
  }

  lemma SentGrows(sent: seq<Request>, out: seq<Request>, id: nat, version: int)
    ensures SentPrepare(sent, id, version) ==> SentPrepare(sent + out, id, version)
    ensures SentCommit(sent, id, version) ==> SentCommit(sent + out, id, version)
  {
    if SentPrepare(sent, id, version) {
      var i :| 0 <= i < |sent| && sent[i].PollerPrepare? && sent[i].id == id && sent[i].version == version;
      assert (sent + out)[i] == sent[i];
    }
    if SentCommit(sent, id, version) {
      var i :| 0 <= i < |sent| && sent[i].PollerCommit? && sent[i].id == id && sent[i].version == version;
      assert (sent + out)[i] == sent[i];
    }
  }

  lemma JustifiedGrows(sent: seq<Request>, out: seq<Request>, seen: seq<Response>, more: seq<Response>)
    requires Justified(sent, seen)
    requires forall i | 0 <= i < |out| && out[i].PollerCommit? :: Acknowledged(sent, seen + more, out[i].version)
    ensures Justified(sent + out, seen + more)
  {
    forall i | 0 <= i < |sent + out| && (sent + out)[i].PollerCommit?
      ensures Acknowledged(sent + out, seen + more, (sent + out)[i].version)
    {
      var v := (sent + out)[i].version;
      if i < |sent| {
        var id: nat :| SentPrepare(sent, id, v) && SawPrepared(seen, id);
        var k :| 0 <= k < |seen| && seen[k].Result? && seen[k].id == id && seen[k].status == Prepared;
        assert (seen + more)[k] == seen[k];
        SentGrows(sent, out, id, v);
      } else {
        var id: nat :| SentPrepare(sent, id, v) && SawPrepared(seen + more, id);
        SentGrows(sent, out, id, v);
      }
    }
  }

  lemma TrackedGrows(a: Agent, sent: seq<Request>, out: seq<Request>)
    requires Tracked(a, sent)
    requires forall k, i | k in a.pending && !a.pending[k].committing && 0 <= i < |out| && out[i].PollerCommit? ::
               out[i].version != a.pending[k].version
    ensures Tracked(a, sent + out)
  {
    forall k | k in a.pending
      ensures a.pending[k].committing ==> SentCommit(sent + out, k, a.pending[k].version)
      ensures !a.pending[k].committing ==> SentPrepare(sent + out, k, a.pending[k].version)
    {
      SentGrows(sent, out, k, a.pending[k].version);
    }
  }

  lemma NumberedGrows(a: Agent, a': Agent, sent: seq<Request>, out: seq<Request>)
    requires Numbered(a, sent) && a'.outMsgId == a.outMsgId + |out| && a'.checksVersion >= a.checksVersion
    requires forall i | 0 <= i < |out| :: out[i].id == a.outMsgId + 1 + i && 1 <= out[i].version <= a'.checksVersion
    ensures Numbered(a', sent + out)
  {
  }

  lemma BundleOnce(a: Agent, sent: seq<Request>, out: seq<Request>)
    requires Numbered(a, sent) && AtMostOnce(sent) && Transmits(out, a.outMsgId + 1, a.checksVersion + 1)
    ensures AtMostOnce(sent + out)
  {
  }

  lemma BundleKeepsInv(run: AgentRun, a': Agent, out: seq<Request>)
    requires AgentInv(run)
    requires Transmits(out, run.agent.outMsgId + 1, run.agent.checksVersion + 1)
    requires a'.outMsgId == run.agent.outMsgId + |out| && a'.checksVersion == run.agent.checksVersion + 1
    requires exists ids :: a'.pending == run.agent.pending[run.agent.outMsgId + 1 := Pending(a'.checksVersion, ids, false)]
    ensures AgentInv(AgentRun(a', run.sent + out, run.seen))
  {
    hide Numbered, AtMostOnce, Justified, Tracked;
    var a, sent := run.agent, run.sent;
    NumberedGrows(a, a', sent, out);
    BundleOnce(a, sent, out);
    JustifiedGrows(sent, out, run.seen, []);
    assert run.seen + [] == run.seen;
    BundleTracked(a, a', sent, out);
  }

  lemma BundleTracked(a: Agent, a': Agent, sent: seq<Request>, out: seq<Request>)
    requires Numbered(a, sent) && Tracked(a, sent) && Transmits(out, a.outMsgId + 1, a.checksVersion + 1)
    requires a'.outMsgId == a.outMsgId + |out| && a'.checksVersion == a.checksVersion + 1
    requires exists ids :: a'.pending == a.pending[a.outMsgId + 1 := Pending(a'.checksVersion, ids, false)]
    ensures Tracked(a', sent + out)
  {
    TrackedGrows(a, sent, out);
    assert SentPrepare(sent + out, a.outMsgId + 1, a'.checksVersion) by { assert (sent + out)[|sent|] == out[0]; }
  }

  lemma ReplyKeepsInv(run: AgentRun, r: Response)
    requires AgentInv(run)
    ensures AgentInv(AgentStep(run, Reply(r)))
  {
    hide Numbered, AtMostOnce, Justified, Tracked;
    var a, sent := run.agent, run.sent;
    var (a', out) := Receive(a, r);
    if out == [] {
      assert sent + out == sent;
      ForgettingKeepsInv(run, a', r);
    } else {
      CommitKeepsInv(run, r, a', out[0]);
    }
  }

  lemma ForgettingKeepsInv(run: AgentRun, a': Agent, r: Response)
    requires AgentInv(run) && a'.outMsgId == run.agent.outMsgId && a'.checksVersion == run.agent.checksVersion
    requires forall k <- a'.pending :: k in run.agent.pending && a'.pending[k] == run.agent.pending[k]
    ensures AgentInv(AgentRun(a', run.sent, run.seen + [r]))
  {
    JustifiedGrows(run.sent, [], run.seen, [r]);
    assert run.sent + [] == run.sent;
  }

  lemma CommitKeepsInv(run: AgentRun, r: Response, a': Agent, commit: Request)
    requires AgentInv(run)
    requires r.Result? && r.status == Prepared && r.id in run.agent.pending && !run.agent.pending[r.id].committing
    requires commit == PollerCommit(run.agent.outMsgId + 1, "", run.agent.pending[r.id].version)
    requires a' == run.agent.(
               outMsgId := commit.id,
               pending := (run.agent.pending - {r.id})[commit.id := run.agent.pending[r.id].(committing := true)])
    ensures AgentInv(AgentRun(a', run.sent + [commit], run.seen + [r]))
  {
    hide Justified;
    var a, sent := run.agent, run.sent;
    assert Numbered(a', sent + [commit]) && AtMostOnce(sent + [commit]);
    CommitJustified(sent, run.seen, r, commit);
    CommitTracked(a, sent, r.id, commit);
  }

  lemma CommitJustified(sent: seq<Request>, seen: seq<Response>, r: Response, commit: Request)
    requires Justified(sent, seen) && SentPrepare(sent, r.id, commit.version) && r.Result? && r.status == Prepared
    ensures Justified(sent + [commit], seen + [r])
  {
    assert (seen + [r])[|seen|] == r;
    assert Acknowledged(sent, seen + [r], commit.version);
    JustifiedGrows(sent, [commit], seen, [r]);
  }

  lemma CommitTracked(a: Agent, sent: seq<Request>, id: nat, commit: Request)
    requires Tracked(a, sent) && id in a.pending && !a.pending[id].committing
    requires commit == PollerCommit(a.outMsgId + 1, "", a.pending[id].version)
    ensures Tracked(a.(outMsgId := commit.id,
                       pending := (a.pending - {id})[commit.id := a.pending[id].(committing := true)]), sent + [commit])
  {
    var rest := a.(pending := a.pending - {id});
    assert Tracked(rest, sent) && forall k <- rest.pending :: rest.pending[k].version != commit.version;
    TrackedGrows(rest, sent, [commit]);
    assert SentCommit(sent + [commit], commit.id, commit.version) by { assert (sent + [commit])[|sent|] == commit; }
    TrackedAdds(rest, sent + [commit], commit.id, a.pending[id].(committing := true));
  }

  lemma TrackedAdds(a: Agent, sent: seq<Request>, id: nat, p: Pending)
    requires Tracked(a, sent) && id == a.outMsgId + 1
    requires p.committing && SentCommit(sent, id, p.version) && 1 <= p.version <= a.checksVersion
    requires forall k <- a.pending :: a.pending[k].version != p.version
    ensures Tracked(a.(outMsgId := id, pending := a.pending[id := p]), sent)
  {
  }

  // ---- classification of a reloaded bundle ----

  /** Ids already committed are put on the start list, the others on the restart list.
      The set of committed ids does not exist before the first commit; asking it then crashes. */
  function Classify(committed: Option<set<string>>, checks: seq<CheckIn>): Option<(seq<CheckIn>, seq<CheckIn>)> {
    if |checks| == 0 then Some(([], []))
    else if committed.None? then None
    else
      var rest := Classify(committed, checks[..|checks| - 1]);
      var c := checks[|checks| - 1];
      if rest.None? then None
      else if c.id in committed.value then Some((rest.value.0 + [c], rest.value.1))
      else Some((rest.value.0, rest.value.1 + [c]))
  }

  lemma {:induction false} ClassifyKeeps(committed: set<string>, checks: seq<CheckIn>)
    ensures Classify(Some(committed), checks).Some?
    ensures var (start, restart) := Classify(Some(committed), checks).value;
            multiset(start) + multiset(restart) == multiset(checks)
  {
    if |checks| > 0 {
      var n := |checks| - 1;
      ClassifyKeeps(committed, checks[..n]);
      assert checks == checks[..n] + [checks[n]];
    }
  }

  lemma {:induction false} ClassifySeparates(committed: set<string>, checks: seq<CheckIn>)
    ensures Classify(Some(committed), checks).Some?
    ensures var (start, restart) := Classify(Some(committed), checks).value;
            (forall c <- start :: c.id in committed) && (forall c <- restart :: c.id !in committed)
  {
    if |checks| > 0 {
      ClassifySeparates(committed, checks[..|checks| - 1]);
    }
  }

  /** Exactly when classification gets through, and that it then loses and invents nothing. */
  lemma ClassifyPartitions(committed: Option<set<string>>, checks: seq<CheckIn>)
    ensures Classify(committed, checks).Some? <==> checks == [] || committed.Some?
    ensures committed.Some? ==>
              var (start, restart) := Classify(committed, checks).value;
              && multiset(start) + multiset(restart) == multiset(checks)
              && (forall c <- start :: c.id in committed.value)
              && (forall c <- restart :: c.id !in committed.value)
  {
    if committed.Some? {
      hide Classify;
      ClassifyKeeps(committed.value, checks);
      ClassifySeparates(committed.value, checks);
    }
  }

  // ---- the agent object ----

  class EndpointAgent {
    const prepareBlockSize: nat
    var outMsgId: nat
    var checksVersion: nat
    var committedChecks: Option<set<string>>
    var pendingPrepares: map<nat, Pending>
    /** Frames written to the poller, oldest first. */
    var responder: seq<Request>

    ghost function View(): Agent
      reads this
    {
      Agent(prepareBlockSize, outMsgId, checksVersion, committedChecks, pendingPrepares)
    }

    constructor (prepareBlockSize: nat)
      ensures View() == NewAgent(prepareBlockSize) && responder == []
    {
      this.prepareBlockSize := prepareBlockSize;
      outMsgId, checksVersion, committedChecks, pendingPrepares, responder := 0, 0, None, map[], [];
    }

    method AllocateMsgId() returns (id: nat)
      modifies this`outMsgId
      ensures outMsgId == old(outMsgId) + 1 == id
    {
      outMsgId := outMsgId + 1;
      id := outMsgId;
    }

    method SendTo(f: Request)
      modifies this`responder
      ensures responder == old(responder) + [f]
    {
      responder := responder + [f];
    }

    static method BuildManifest(checksToStart: seq<CheckIn>, checksToRestart: seq<CheckIn>)
      returns (manifest: seq<ManifestEntry>, allCheckIds: seq<string>)
      ensures manifest == ManifestOf(checksToStart, checksToRestart)
      ensures allCheckIds == CheckIds(checksToStart + checksToRestart)
    {
      manifest, allCheckIds := [], [];
      for i := 0 to |checksToStart|
        invariant manifest == ManifestOf(checksToStart[..i], [])
      {
        manifest := manifest + [ManifestEntryOf(checksToStart[i], Start)];
      }
      for i := 0 to |checksToRestart|
        invariant manifest == ManifestOf(checksToStart, checksToRestart[..i])
      {
        manifest := manifest + [ManifestEntryOf(checksToRestart[i], Restart)];
      }
      var allChecks := checksToStart + checksToRestart;
      for i := 0 to |allChecks|
        invariant allCheckIds == CheckIds(allChecks[..i])
      {
        allCheckIds := allCheckIds + [allChecks[i].id];
      }
      assert allChecks[..|allChecks|] == allChecks;
    }

    method SendBlocks(allChecks: seq<CheckIn>)
      modifies this`outMsgId, this`responder
      ensures var blocks := Blocks(allChecks, prepareBlockSize);
              && outMsgId == old(outMsgId) + |blocks|
              && responder == old(responder) + BlockFrames(blocks, old(outMsgId) + 1, checksVersion)
    {
      ghost var full: seq<seq<CheckIn>> := [];
      var block: seq<CheckIn> := [];
      for i := 0 to |allChecks|
        invariant Cut(allChecks[..i], prepareBlockSize) == Cutting(full, block)
        invariant outMsgId == old(outMsgId) + |full|
        invariant responder == old(responder) + BlockFrames(full, old(outMsgId) + 1, checksVersion)
      {
        assert allChecks[..i + 1][..i] == allChecks[..i];
        block := block + [allChecks[i]];
        if |block| >= prepareBlockSize {
          var id := AllocateMsgId();
          SendTo(PollerPrepareBlock(id, "", checksVersion, block));
          full := full + [block];
          block := [];
        }
      }
      assert allChecks[..|allChecks|] == allChecks;
      if block != [] {
        var id := AllocateMsgId();
        SendTo(PollerPrepareBlock(id, "", checksVersion, block));
        full := full + [block];
      }
    }

    method PrepareAndSend(checksToStart: seq<CheckIn>, checksToRestart: seq<CheckIn>)
      modifies this
      ensures var (next, frames) := PrepareChecks(old(View()), checksToStart, checksToRestart);
              View() == next && responder == old(responder) + frames
    {
      var manifest, allCheckIds := BuildManifest(checksToStart, checksToRestart);
      checksVersion := checksVersion + 1;
      var msgId := AllocateMsgId();
      pendingPrepares := pendingPrepares[msgId := Pending(checksVersion, allCheckIds, false)];
      SendTo(PollerPrepare(msgId, "", checksVersion, manifest));
      SendBlocks(checksToStart + checksToRestart);
      var endId := AllocateMsgId();
      SendTo(PollerPrepareEnd(endId, "", checksVersion, DirectivePrepare));
    }

    method HandleResponse(r: Response)
      modifies this
      ensures var (next, frames) := Receive(old(View()), r);
              View() == next && responder == old(responder) + frames
    {
      if r.id !in pendingPrepares || r.Undecodable? {
        return;
      }
      var ourPending := pendingPrepares[r.id];
      if ourPending.committing {
        if r.status == Committed {
          committedChecks := Some(SetOf(ourPending.checkIds));
          pendingPrepares := pendingPrepares - {r.id};
        }
      } else if r.status == Prepared {
        var msgId := AllocateMsgId();
        pendingPrepares := pendingPrepares - {r.id};
        pendingPrepares := pendingPrepares[msgId := ourPending.(committing := true)];
        SendTo(PollerCommit(msgId, "", ourPending.version));
      } else {
        pendingPrepares := pendingPrepares - {r.id};
      }
    }

    /** `ok` is false when the reload crashes on the missing set of committed ids. */
    method HandleUnclassified(checks: seq<CheckIn>) returns (ok: bool)
      modifies this
      ensures ok == Classify(old(committedChecks), checks).Some?
      ensures !ok ==> View() == old(View()) && responder == old(responder)
      ensures ok ==>
                var (start, restart) := Classify(old(committedChecks), checks).value;
                var (next, frames) := PrepareChecks(old(View()), start, restart);
                View() == next && responder == old(responder) + frames
    {
      var start: seq<CheckIn>, restart: seq<CheckIn> := [], [];
      for i := 0 to |checks|
        invariant Classify(committedChecks, checks[..i]) == Some((start, restart))
        invariant unchanged(this)
      {
        if committedChecks.None? {
          ClassifyPartitions(committedChecks, checks);
          return false;
        }
        assert checks[..i + 1][..i] == checks[..i];
        if checks[i].id in committedChecks.value {
          start := start + [checks[i]];
        } else {
          restart := restart + [checks[i]];
        }
      }
      assert checks[..|checks|] == checks;
      PrepareAndSend(start, restart);
      ok := true;
    }
  }
}
