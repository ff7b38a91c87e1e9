/** What the agent waits for and believes, told from the messages it sent and the responses it saw alone. */
module AgentHistory {
  import opened Protocol
  import opened Agents

  datatype Entry = Sent(f: Request) | Seen(r: Response)

  function AllSent(out: seq<Request>): seq<Entry> {
    seq(|out|, i requires 0 <= i < |out| => Sent(out[i]))
  }

  function EntriesOf(a: Agent, e: AgentEvent): seq<Entry> {
    match e
    case Bundle(start, restart) => AllSent(PrepareChecks(a, start, restart).1)
    case Reply(r) => [Seen(r)] + AllSent(Receive(a, r).1)
  }

  function Log(blockSize: nat, events: seq<AgentEvent>): seq<Entry> {
    if |events| == 0 then []
    else
      var n := |events| - 1;
      Log(blockSize, events[..n]) + EntriesOf(RunAgent(blockSize, events[..n]).agent, events[n])
  }

  datatype Awaits = Awaits(version: int, commit: bool)

  /** A prepare is awaited until some result comes, a commit until `committed` comes, both under their own id. */
  function Awaited(log: seq<Entry>, id: nat): Option<Awaits> {
    if |log| == 0 then None
    else
      var before := Awaited(log[..|log| - 1], id);
      match log[|log| - 1]
      case Sent(f) =>
        if f.id == id && f.PollerPrepare? then Some(Awaits(f.version, false))
        else if f.id == id && f.PollerCommit? then Some(Awaits(f.version, true))
        else before
      case Seen(r) =>
        if r.id == id && r.Result? && before.Some? && (before.value.commit ==> r.status == Committed) then None
        else before
  }

  /** The version whose commit was the last to be answered while it was awaited. */
  function LastCommitted(log: seq<Entry>): Option<int> {
    if |log| == 0 then None
    else
      var n := |log| - 1;
      var e := log[n];
      if e.Seen? && e.r.Result? && e.r.status == Committed && Awaited(log[..n], e.r.id).Some? && Awaited(log[..n], e.r.id).value.commit
      then Some(Awaited(log[..n], e.r.id).value.version)
      else LastCommitted(log[..n])
  }

  function ManifestIds(manifest: seq<ManifestEntry>): set<string> {
    set i | 0 <= i < |manifest| :: manifest[i].id
  }

  /** The ids in the manifest sent under a version. */
  function IdsSent(log: seq<Entry>, version: int): set<string> {
    if |log| == 0 then {}
    else
      var e := log[|log| - 1];
      if e.Sent? && e.f.PollerPrepare? && e.f.version == version then ManifestIds(e.f.manifest)
      else IdsSent(log[..|log| - 1], version)
  }

  // ---- appending what a step adds ----

  predicate Plain(f: Request) { !f.PollerPrepare? && !f.PollerCommit? }

  /** Of a transmission only the prepare matters. */
  lemma {:induction false} OverTransmission(log: seq<Entry>, out: seq<Request>, id: nat, version: int)
    requires out != [] && out[0].PollerPrepare? && forall i | 0 < i < |out| :: Plain(out[i])
    ensures Awaited(log + AllSent(out), id)
         == if id == out[0].id then Some(Awaits(out[0].version, false)) else Awaited(log, id)
    ensures LastCommitted(log + AllSent(out)) == LastCommitted(log)
    ensures IdsSent(log + AllSent(out), version)
         == if version == out[0].version then ManifestIds(out[0].manifest) else IdsSent(log, version)
  {
    var n := |out| - 1;
    var whole := log + AllSent(out);
    assert whole[..|whole| - 1] == log + AllSent(out[..n]) && whole[|whole| - 1] == Sent(out[n]);
    if n > 0 {
      OverTransmission(log, out[..n], id, version);
    } else {
      assert log + AllSent(out[..n]) == log;
    }
  }

  lemma OverReply(log: seq<Entry>, r: Response, out: seq<Request>, id: nat, version: int)
    requires out == [] || (|out| == 1 && out[0].PollerCommit?)
    ensures var seen := log + [Seen(r)];
            && Awaited(seen + AllSent(out), id)
               == (if out != [] && id == out[0].id then Some(Awaits(out[0].version, true)) else Awaited(seen, id))
            && LastCommitted(seen + AllSent(out)) == LastCommitted(seen)
            && IdsSent(seen + AllSent(out), version) == IdsSent(log, version)
    ensures Awaited(log + [Seen(r)], id)
         == (var before := Awaited(log, id);
             if r.id == id && r.Result? && before.Some? && (before.value.commit ==> r.status == Committed) then None else before)
    ensures LastCommitted(log + [Seen(r)])
         == (var before := Awaited(log, r.id);
             if r.Result? && r.status == Committed && before.Some? && before.value.commit
             then Some(before.value.version) else LastCommitted(log))
  {
    var seen := log + [Seen(r)];
    assert seen[..|log|] == log && seen[|log|] == Seen(r);
    if out == [] {
      assert seen + AllSent(out) == seen;
    } else {
      var whole := seen + AllSent(out);
      assert whole[..|seen|] == seen && whole[|seen|] == Sent(out[0]);
    }
  }

  // ---- the theorems ----

  /** The pending table, entry by entry, and the set of committed ids are what the log says. */
  ghost predicate Follows(a: Agent, log: seq<Entry>) {
    && (forall id :: if id in a.pending then Awaited(log, id) == Some(Awaits(a.pending[id].version, a.pending[id].committing))
                     else Awaited(log, id) == None)
    && (forall id <- a.pending :: SetOf(a.pending[id].checkIds) == IdsSent(log, a.pending[id].version))
    && (LastCommitted(log).Some? ==> LastCommitted(log).value <= a.checksVersion)
    && a.committedChecks == match LastCommitted(log) case None => None case Some(v) => Some(IdsSent(log, v))
  }

  lemma BundleFollows(a: Agent, log: seq<Entry>, start: seq<CheckIn>, restart: seq<CheckIn>)
    requires Follows(a, log) && forall id <- a.pending :: id <= a.outMsgId && a.pending[id].version <= a.checksVersion
    ensures Follows(PrepareChecks(a, start, restart).0, log + AllSent(PrepareChecks(a, start, restart).1))
  {
    var (a', out) := PrepareChecks(a, start, restart);
    TransmissionShape(a.outMsgId + 1, a'.checksVersion, start, restart, a.blockSize);
    assert out[0] == PollerPrepare(a.outMsgId + 1, "", a'.checksVersion, ManifestOf(start, restart));
    ManifestBearsIds(start, restart);
    hide Follows, Transmission, ManifestOf, CheckIds, ManifestIds, SetOf;
    PreparedFollows(a, a', log, out, CheckIds(start + restart));
  }

  lemma PreparedFollows(a: Agent, a': Agent, log: seq<Entry>, out: seq<Request>, ids: seq<string>)
    requires Follows(a, log) && forall id <- a.pending :: id <= a.outMsgId && a.pending[id].version <= a.checksVersion
    requires Transmits(out, a.outMsgId + 1, a.checksVersion + 1) && SetOf(ids) == ManifestIds(out[0].manifest)
    requires a'.checksVersion == a.checksVersion + 1 && a'.committedChecks == a.committedChecks
    requires a'.pending == a.pending[a.outMsgId + 1 := Pending(a.checksVersion + 1, ids, false)]
    ensures Follows(a', log + AllSent(out))
  {
    hide Awaited, LastCommitted, IdsSent, AllSent, ManifestIds, SetOf;
    var log' := log + AllSent(out);
    OverTransmission(log, out, 0, 0);
    forall id: nat
      ensures Awaited(log', id)
           == if id == a.outMsgId + 1 then Some(Awaits(a'.checksVersion, false)) else Awaited(log, id)
    {
      OverTransmission(log, out, id, 0);
    }
    forall version: int
      ensures IdsSent(log', version)
           == if version == a'.checksVersion then ManifestIds(out[0].manifest) else IdsSent(log, version)
    {
      OverTransmission(log, out, 0, version);
    }
  }

  /** The manifest names the checks in the order they are sent, each with its own type, entity and zone. */
  lemma ManifestBearsIds(start: seq<CheckIn>, restart: seq<CheckIn>)
    ensures var m, cs := ManifestOf(start, restart), start + restart;
            && |m| == |cs|
            && (forall i | 0 <= i < |m| ::
                  && m[i].id == cs[i].id && m[i].checkType == cs[i].checkType
                  && m[i].entityId == cs[i].entityId && m[i].zoneId == cs[i].zoneId
                  && m[i].action == if i < |start| then Start else Restart)
    ensures SetOf(CheckIds(start + restart)) == ManifestIds(ManifestOf(start, restart))
  {
    var m, ids := ManifestOf(start, restart), CheckIds(start + restart);
    assert |m| == |ids| && forall i | 0 <= i < |m| :: m[i].id == ids[i];
    forall x | x in SetOf(ids) ensures x in ManifestIds(m) {
      var i :| 0 <= i < |ids| && ids[i] == x;
      assert m[i].id == x;
    }
    forall x | x in ManifestIds(m) ensures x in SetOf(ids) {
      var i :| 0 <= i < |m| && m[i].id == x;
      assert ids[i] == x;
    }
  }

  lemma ReplyFollows(a: Agent, log: seq<Entry>, r: Response)
    requires Follows(a, log) && forall id <- a.pending :: id <= a.outMsgId && a.pending[id].version <= a.checksVersion
    ensures Follows(Receive(a, r).0, log + ([Seen(r)] + AllSent(Receive(a, r).1)))
  {
    var (a', out) := Receive(a, r);
    var seen := log + [Seen(r)];
    assert log + ([Seen(r)] + AllSent(out)) == seen + AllSent(out);
    hide Awaited, LastCommitted, IdsSent;
    forall id: nat
      ensures Awaited(seen + AllSent(out), id)
           == if out != [] && id == out[0].id then Some(Awaits(out[0].version, true)) else Awaited(seen, id)
      ensures Awaited(seen, id)
           == (var before := Awaited(log, id);
               if r.id == id && r.Result? && before.Some? && (before.value.commit ==> r.status == Committed) then None else before)
    {
      OverReply(log, r, out, id, 0);
    }
    forall version ensures IdsSent(seen + AllSent(out), version) == IdsSent(log, version) {
      OverReply(log, r, out, 0, version);
    }
    OverReply(log, r, out, 0, 0);
  }

  /** Whatever responses arrive: exactly those messages are pending whose answer is awaited, and the ids believed
      committed are those sent under the version whose commit was the last to be answered. */
  lemma {:induction false} PendingIsExact(blockSize: nat, events: seq<AgentEvent>)
    ensures Follows(RunAgent(blockSize, events).agent, Log(blockSize, events))
  {
    if |events| > 0 {
      hide Follows;
      var n := |events| - 1;
      PendingIsExact(blockSize, events[..n]);
      PendingWithinCounters(blockSize, events[..n]);
      assert Log(blockSize, events) == Log(blockSize, events[..n]) + EntriesOf(RunAgent(blockSize, events[..n]).agent, events[n]);
      var run := RunAgent(blockSize, events[..n]);
      match events[n]
      case Bundle(start, restart) => BundleFollows(run.agent, Log(blockSize, events[..n]), start, restart);
      case Reply(r) => ReplyFollows(run.agent, Log(blockSize, events[..n]), r);
    }
  }

  lemma PendingWithinCounters(blockSize: nat, events: seq<AgentEvent>)
    ensures var a := RunAgent(blockSize, events).agent;
            forall id <- a.pending :: id <= a.outMsgId && a.pending[id].version <= a.checksVersion
  {
    hide RunAgent;
    AgentRobust(blockSize, events);
  }

  /** In every run, a commit is sent exactly upon `prepared` for a prepare that is awaited, of that version, under the
      next id. */
  lemma CommitSentIff(blockSize: nat, events: seq<AgentEvent>, r: Response)
    ensures var a, awaited := RunAgent(blockSize, events).agent, Awaited(Log(blockSize, events), r.id);
            Receive(a, r).1 ==
              if r.Result? && r.status == Prepared && awaited.Some? && !awaited.value.commit
              then [PollerCommit(a.outMsgId + 1, "", awaited.value.version)] else []
  {
    hide RunAgent, Log, Awaited;
    PendingIsExact(blockSize, events);
  }

  /** In every run, a response that was just read changes nothing and sends nothing when it comes again. */
  lemma RepeatChangesNothing(blockSize: nat, events: seq<AgentEvent>, r: Response)
    ensures var after := Receive(RunAgent(blockSize, events).agent, r).0;
            Receive(after, r) == (after, [])
  {
    PendingWithinCounters(blockSize, events);
  }

  /** The response settles what it is under: it is awaited and decodes, and says `committed` if it is for a commit. */
  predicate Settles(a: Agent, r: Response) {
    r.id in a.pending && r.Result? && (a.pending[r.id].committing ==> r.status == Committed)
  }

  /** In every run, what is settled stays settled: whatever happens later, no response under that id has any
      effect again. Anything else leaves the entry as it was. */
  lemma SettledForGood(blockSize: nat, events: seq<AgentEvent>, r: Response, more: seq<AgentEvent>, again: Response)
    requires again.id == r.id
    ensures var a, after := RunAgent(blockSize, events).agent, RunAgent(blockSize, events + [Reply(r)]).agent;
            var later := RunAgent(blockSize, events + [Reply(r)] + more).agent;
            if Settles(a, r) then r.id !in later.pending && Receive(later, again) == (later, [])
            else after == a
  {
    assert (events + [Reply(r)])[..|events|] == events;
    PendingWithinCounters(blockSize, events);
    assert RunAgent(blockSize, events + [Reply(r)]).agent == Receive(RunAgent(blockSize, events).agent, r).0;
    if Settles(RunAgent(blockSize, events).agent, r) {
      StaysSettled(blockSize, events + [Reply(r)], r.id, more);
    }
  }

  lemma {:induction false} StaysSettled(blockSize: nat, events: seq<AgentEvent>, id: nat, more: seq<AgentEvent>)
    requires var a := RunAgent(blockSize, events).agent; id <= a.outMsgId && id !in a.pending
    ensures var a := RunAgent(blockSize, events + more).agent; id <= a.outMsgId && id !in a.pending
  {
    if more == [] {
      assert events + more == events;
    } else {
      var n := |more| - 1;
      StaysSettled(blockSize, events, id, more[..n]);
      assert (events + more)[..|events + more| - 1] == events + more[..n];
    }
  }
}
