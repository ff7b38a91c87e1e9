/** How a session matches incoming responses to the requests it sent, while also sending responses of its
    own whose ids the other side chose. */
module Correlation {
  import opened Protocol

  /** `NoMethod` is the empty method name that marks a response frame. */
  datatype Method = Hello | Heartbeat | MetricsPost | OtherMethod(name: string) | NoMethod

  datatype Out = Out(id: nat, op: Method)

  /** What passed over the connection: a frame sent, or a response received, with or without an error. */
  datatype Traffic = Sent(frame: Out) | Got(id: nat, error: bool)

  /** `unstaged` holds requests that have an id but are not staged yet: several goroutines send.
      `wire` is what has happened on the connection. */
  datatype Correlator = Correlator(
    seqId: nat,
    unstaged: map<nat, Method>,
    sendCh: seq<Out>,
    completions: map<nat, Method>,
    authenticated: nat,
    wire: seq<Traffic>)

  datatype Event =
    | Allocate(op: Method)
    | Stage(id: nat)
    | Respond(id: nat)
    | SendNext
    | Receive(id: nat, error: bool)

  /** The session when its goroutines start. The first id goes to the handshake request; nothing else is
      asked before it is answered, but requests of the other side may already be responded to. */
  const Opened := Correlator(0, map[], [], map[], 0, [])

  function Step(c: Correlator, e: Event): Correlator {
    match e
    case Allocate(m) =>
      if m == NoMethod || (m == Hello) != (c.seqId == 0) then c
      else c.(seqId := c.seqId + 1, unstaged := c.unstaged[c.seqId + 1 := m])
    case Stage(id) =>
      if id !in c.unstaged then c
      else c.(unstaged := c.unstaged - {id}, sendCh := c.sendCh + [Out(id, c.unstaged[id])])
    case Respond(id) => c.(sendCh := c.sendCh + [Out(id, NoMethod)])
    case SendNext =>
      if c.sendCh == [] then c
      else
        var f := c.sendCh[0];
        c.(sendCh := c.sendCh[1..], completions := c.completions[f.id := f.op], wire := c.wire + [Sent(f)])
    case Receive(id, error) =>
      c.(completions := c.completions - {id},
         authenticated := c.authenticated + if id in c.completions && c.completions[id] == Hello && !error then 1 else 0,
         wire := c.wire + [Got(id, error)])
  }

  function RunCorrelator(events: seq<Event>): Correlator {
    if |events| == 0 then Opened
    else Step(RunCorrelator(events[..|events| - 1]), events[|events| - 1])
  }

  // ---- what a response is taken to answer, told from the connection alone ----

  /** The method of the last frame sent under an id since the last response under it. */
  function Matched(wire: seq<Traffic>, id: nat): Option<Method> {
    if |wire| == 0 then None
    else
      match wire[|wire| - 1]
      case Sent(f) => if f.id == id then Some(f.op) else Matched(wire[..|wire| - 1], id)
      case Got(i, _) => if i == id then None else Matched(wire[..|wire| - 1], id)
  }

  predicate SentRequest(wire: seq<Traffic>, i: nat, id: nat, m: Method) {
    i < |wire| && wire[i] == Sent(Out(id, m)) && m != NoMethod
  }

  predicate Asks(t: Traffic) { t.Sent? && t.frame.op != NoMethod }

  predicate IsRequest(f: Out) { f.op != NoMethod }

  /** Request ids come from the counter; only the first is a handshake. */
  ghost predicate RequestsOk(c: Correlator) {
    && (forall id <- c.unstaged ::
          1 <= id <= c.seqId && c.unstaged[id] != NoMethod && (c.unstaged[id] == Hello ==> id == 1))
    && (forall i | 0 <= i < |c.sendCh| && IsRequest(c.sendCh[i]) ::
          1 <= c.sendCh[i].id <= c.seqId && c.sendCh[i].id !in c.unstaged && (c.sendCh[i].op == Hello ==> c.sendCh[i].id == 1))
    && (forall i | 0 <= i < |c.wire| && Asks(c.wire[i]) ::
          1 <= c.wire[i].frame.id <= c.seqId && c.wire[i].frame.id !in c.unstaged && (c.wire[i].frame.op == Hello ==> c.wire[i].frame.id == 1))
  }

  /** No two requests share an id. */
  ghost predicate RequestsDistinct(c: Correlator) {
    && (forall i, j | 0 <= i < j < |c.sendCh| && IsRequest(c.sendCh[i]) && IsRequest(c.sendCh[j]) ::
          c.sendCh[i].id != c.sendCh[j].id)
    && (forall i, j | 0 <= i < |c.wire| && Asks(c.wire[i]) && 0 <= j < |c.sendCh| && IsRequest(c.sendCh[j]) ::
          c.wire[i].frame.id != c.sendCh[j].id)
    && (forall i, j | 0 <= i < j < |c.wire| && Asks(c.wire[i]) && Asks(c.wire[j]) ::
          c.wire[i].frame.id != c.wire[j].frame.id)
  }

  /** The table of completions is what `Matched` says. */
  ghost predicate TableOk(c: Correlator) {
    forall id: nat :: if id in c.completions then Matched(c.wire, id) == Some(c.completions[id]) else Matched(c.wire, id) == None
  }

  lemma RequestsStep(c: Correlator, e: Event)
    requires RequestsOk(c) && RequestsDistinct(c)
    ensures RequestsOk(Step(c, e)) && RequestsDistinct(Step(c, e))
  {
    hide RequestsOk, RequestsDistinct;
    NumbersStep(c, e);
    if e == SendNext {
      DistinctSendNext(c);
    } else {
      DistinctStep(c, e);
    }
  }

  lemma NumbersStep(c: Correlator, e: Event)
    requires RequestsOk(c)
    ensures RequestsOk(Step(c, e))
  {
  }

  lemma DistinctStep(c: Correlator, e: Event)
    requires RequestsOk(c) && RequestsDistinct(c) && e != SendNext
    ensures RequestsDistinct(Step(c, e))
  {
  }

  lemma DistinctSendNext(c: Correlator)
    requires RequestsDistinct(c)
    ensures RequestsDistinct(Step(c, SendNext))
  {
  }

  lemma TableStep(c: Correlator, e: Event)
    requires TableOk(c)
    ensures TableOk(Step(c, e))
  {
    var c' := Step(c, e);
    if |c'.wire| > |c.wire| {
      assert c'.wire[..|c'.wire| - 1] == c.wire;
    }
  }

  lemma {:induction false} RunOk(events: seq<Event>)
    ensures var c := RunCorrelator(events);
            RequestsOk(c) && RequestsDistinct(c) && TableOk(c)
  {
    if |events| > 0 {
      hide RequestsOk, RequestsDistinct, TableOk;
      var n := |events| - 1;
      RunOk(events[..n]);
      RequestsStep(RunCorrelator(events[..n]), events[n]);
      TableStep(RunCorrelator(events[..n]), events[n]);
    }
  }

  // ---- the theorems ----

  predicate ReplySent(wire: seq<Traffic>, i: nat, j: nat, id: nat) {
    exists k | i < k < j <= |wire| :: wire[k] == Sent(Out(id, NoMethod))
  }

  /** Correlation. The first response under a request's id is dispatched to that request's method exactly
      when the session sent no response of its own under the same id in between. */
  lemma Correlated(events: seq<Event>, i: nat, j: nat, id: nat, m: Method, error: bool)
    requires var wire := RunCorrelator(events).wire;
             && SentRequest(wire, i, id, m) && i < j < |wire| && wire[j] == Got(id, error)
             && forall k | i < k < j :: !(wire[k].Got? && wire[k].id == id)
    ensures var wire := RunCorrelator(events).wire;
            Matched(wire[..j], id) == Some(m) <==> !ReplySent(wire, i, j, id)
  {
    hide Step, RequestsOk, TableOk;
    var wire := RunCorrelator(events).wire;
    RunOk(events);
    hide RunCorrelator;
    assert Asks(wire[i]);
    forall k, n | i < k < j && wire[k] == Sent(Out(id, n)) ensures n == NoMethod {
      assert Asks(wire[k]) <==> n != NoMethod;
    }
    MatchedSince(wire[..j], i, id, m);
    assert wire[..j][i] == wire[i];
  }

  /** Since a request only replies went out under its id: the last of them, or the request itself, matches. */
  lemma {:induction false} MatchedSince(wire: seq<Traffic>, i: nat, id: nat, m: Method)
    requires i < |wire| && wire[i] == Sent(Out(id, m)) && m != NoMethod
    requires forall k | i < k < |wire| :: !(wire[k].Got? && wire[k].id == id)
    requires forall k, n | i < k < |wire| && wire[k] == Sent(Out(id, n)) :: n == NoMethod
    ensures Matched(wire, id) == if ReplySent(wire, i, |wire|, id) then Some(NoMethod) else Some(m)
  {
    var n := |wire| - 1;
    if i < n {
      assert wire[..n][i] == wire[i];
      MatchedSince(wire[..n], i, id, m);
      match wire[n]
      case Sent(f) =>
        if f.id == id {
          assert wire[n] == Sent(Out(id, f.op));
          assert ReplySent(wire, i, |wire|, id);
        } else {
          ReplySentEarlier(wire, i, id);
        }
      case Got(_, _) => ReplySentEarlier(wire, i, id);
    }
  }

  lemma ReplySentEarlier(wire: seq<Traffic>, i: nat, id: nat)
    requires i < |wire| - 1 && wire[|wire| - 1] != Sent(Out(id, NoMethod))
    ensures ReplySent(wire, i, |wire|, id) <==> ReplySent(wire[..|wire| - 1], i, |wire| - 1, id)
  {
    var n := |wire| - 1;
    if ReplySent(wire, i, |wire|, id) {
      var k :| i < k < |wire| && wire[k] == Sent(Out(id, NoMethod));
      assert wire[..n][k] == wire[k];
    }
    if ReplySent(wire[..n], i, n, id) {
      var k :| i < k < n && wire[..n][k] == Sent(Out(id, NoMethod));
      assert wire[k] == wire[..n][k];
    }
  }

  /** What is matched under a real method was sent as a request, and no response came since. */
  lemma {:induction false} MatchedWasSent(wire: seq<Traffic>, id: nat) returns (i: nat)
    requires Matched(wire, id).Some?
    ensures i < |wire| && wire[i] == Sent(Out(id, Matched(wire, id).value))
    ensures forall k | i < k < |wire| :: !(wire[k].Got? && wire[k].id == id)
  {
    var n := |wire| - 1;
    if wire[n].Sent? && wire[n].frame.id == id {
      i := n;
    } else {
      i := MatchedWasSent(wire[..n], id);
      assert wire[i] == wire[..n][i];
      assert forall k | i < k < n :: wire[..n][k] == wire[k];
    }
  }

  /** The response at `j` is dispatched to the method of a request. */
  predicate IsAnswer(wire: seq<Traffic>, j: nat, id: nat)
    requires j <= |wire|
  {
    Matched(wire[..j], id) !in {None, Some(NoMethod)}
  }

  /** No request is completed twice, whatever is sent and received. */
  lemma CompletedAtMostOnce(events: seq<Event>, j: nat, k: nat, id: nat)
    requires var wire := RunCorrelator(events).wire;
             && j < k < |wire| && wire[j].Got? && wire[j].id == id && wire[k].Got? && wire[k].id == id
    ensures var wire := RunCorrelator(events).wire;
            !(IsAnswer(wire, j, id) && IsAnswer(wire, k, id))
  {
    var wire := RunCorrelator(events).wire;
    RunOk(events);
    assert wire[..k][j] == wire[j];
    if IsAnswer(wire, j, id) {
      var p := MatchedWasSent(wire[..j], id);
      assert Asks(wire[p]);
      assert forall q | 0 <= q < |wire| && Asks(wire[q]) && wire[q].frame.id == id :: q == p;
      if IsAnswer(wire, k, id) {
        var _ := MatchedWasSent(wire[..k], id);
      }
    }
  }

  /** The handshake is open: still to be made, staged or sent, or sent and unanswered. */
  ghost predicate HandshakeOpen(c: Correlator) {
    || c.seqId == 0
    || (1 in c.unstaged && c.unstaged[1] == Hello)
    || (exists i | 0 <= i < |c.sendCh| :: c.sendCh[i].op == Hello)
    || (1 in c.completions && c.completions[1] == Hello)
  }

  /** The connection is marked authenticated at most once: marking it twice would crash. */
  lemma {:induction false} AuthenticatedAtMostOnce(events: seq<Event>)
    ensures RunCorrelator(events).authenticated <= 1
    ensures HandshakeOpen(RunCorrelator(events)) ==> RunCorrelator(events).authenticated == 0
  {
    if |events| > 0 {
      var n := |events| - 1;
      AuthenticatedAtMostOnce(events[..n]);
      RunOk(events[..n]);
      AuthenticatedStep(RunCorrelator(events[..n]), events[n]);
    }
  }

  /** How often an answer without an error came to the handshake. */
  function HandshakesAccepted(wire: seq<Traffic>): nat {
    if |wire| == 0 then 0
    else
      var n := |wire| - 1;
      HandshakesAccepted(wire[..n])
      + if wire[n].Got? && !wire[n].error && Matched(wire[..n], wire[n].id) == Some(Hello) then 1 else 0
  }

  /** In every run, exactly these answers mark the connection authenticated. */
  lemma {:induction false} AuthenticatedByAcceptance(events: seq<Event>)
    ensures RunCorrelator(events).authenticated == HandshakesAccepted(RunCorrelator(events).wire)
  {
    if |events| > 0 {
      hide Step, HandshakesAccepted, TableOk, RequestsOk, RequestsDistinct;
      var n := |events| - 1;
      AuthenticatedByAcceptance(events[..n]);
      RunOk(events[..n]);
      AcceptanceStep(RunCorrelator(events[..n]), events[n]);
    }
  }

  lemma AcceptanceStep(c: Correlator, e: Event)
    requires TableOk(c)
    ensures Step(c, e).authenticated - c.authenticated == HandshakesAccepted(Step(c, e).wire) - HandshakesAccepted(c.wire)
  {
    hide Matched;
    var wire' := Step(c, e).wire;
    if |wire'| > |c.wire| {
      assert wire'[..|c.wire|] == c.wire;
    }
  }

  /** In every run in which the handshake is refused, the connection is never marked authenticated. */
  lemma RefusedIsNeverAuthenticated(events: seq<Event>, j: nat, id: nat)
    requires var wire := RunCorrelator(events).wire;
             j < |wire| && wire[j] == Got(id, true) && Matched(wire[..j], id) == Some(Hello)
    ensures RunCorrelator(events).authenticated == 0
  {
    AuthenticatedByAcceptance(events);
    var wire := RunCorrelator(events).wire;
    if HandshakesAccepted(wire) > 0 {
      var k := AcceptedSomewhere(wire);
      HandshakeIsFirst(events, j);
      HandshakeIsFirst(events, k);
      if j < k {
        CompletedAtMostOnce(events, j, k, id);
      } else {
        CompletedAtMostOnce(events, k, j, id);
      }
    }
  }

  lemma {:induction false} AcceptedSomewhere(wire: seq<Traffic>) returns (k: nat)
    requires HandshakesAccepted(wire) > 0
    ensures k < |wire| && wire[k].Got? && !wire[k].error && Matched(wire[..k], wire[k].id) == Some(Hello)
  {
    k := |wire| - 1;
    if !(wire[k].Got? && !wire[k].error && Matched(wire[..k], wire[k].id) == Some(Hello)) {
      k := AcceptedSomewhere(wire[..|wire| - 1]);
      assert wire[..|wire| - 1][..k] == wire[..k];
    }
  }

  /** Only id 1 is ever matched to the handshake. */
  lemma HandshakeIsFirst(events: seq<Event>, k: nat)
    requires var wire := RunCorrelator(events).wire;
             k < |wire| && wire[k].Got? && Matched(wire[..k], wire[k].id) == Some(Hello)
    ensures RunCorrelator(events).wire[k].id == 1
  {
    var wire := RunCorrelator(events).wire;
    RunOk(events);
    var i := MatchedWasSent(wire[..k], wire[k].id);
    assert Asks(wire[i]);
  }

  // ---- the order of what is sent ----

  function SentFrames(wire: seq<Traffic>): seq<Out> {
    if |wire| == 0 then []
    else SentFrames(wire[..|wire| - 1]) + if wire[|wire| - 1].Sent? then [wire[|wire| - 1].frame] else []
  }

  /** What was sent and what waits to be: in every run, in the order staged, each frame once and under its own id. */
  lemma FramesInOrder(events: seq<Event>, e: Event)
    ensures var c, c' := RunCorrelator(events), RunCorrelator(events + [e]);
            SentFrames(c'.wire) + c'.sendCh == SentFrames(c.wire) + c.sendCh +
              match e
              case Stage(id) => if id in c.unstaged then [Out(id, c.unstaged[id])] else []
              case Respond(id) => [Out(id, NoMethod)]
              case _ => []
  {
    RunOne(events, e);
    hide RunCorrelator;
    match e
    case SendNext => SendKeepsOrder(RunCorrelator(events));
    case _ => StagingKeepsOrder(RunCorrelator(events), e);
  }

  lemma SendKeepsOrder(c: Correlator)
    ensures SentFrames(Step(c, SendNext).wire) + Step(c, SendNext).sendCh == SentFrames(c.wire) + c.sendCh
  {
    if c.sendCh != [] {
      var wire' := Step(c, SendNext).wire;
      assert wire'[..|c.wire|] == c.wire && SentFrames(wire') == SentFrames(c.wire) + [c.sendCh[0]];
      assert c.sendCh == [c.sendCh[0]] + c.sendCh[1..];
    }
  }

  lemma StagingKeepsOrder(c: Correlator, e: Event)
    requires e != SendNext
    ensures SentFrames(Step(c, e).wire) == SentFrames(c.wire)
    ensures Step(c, e).sendCh == c.sendCh +
              match e
              case Stage(id) => if id in c.unstaged then [Out(id, c.unstaged[id])] else []
              case Respond(id) => [Out(id, NoMethod)]
              case _ => []
  {
    if e.Receive? {
      assert Step(c, e).wire[..|c.wire|] == c.wire;
    }
  }

  lemma AuthenticatedStep(c: Correlator, e: Event)
    requires RequestsOk(c) && RequestsDistinct(c) && TableOk(c)
    requires c.authenticated <= 1 && (HandshakeOpen(c) ==> c.authenticated == 0)
    ensures var c' := Step(c, e);
            c'.authenticated <= 1 && (HandshakeOpen(c') ==> c'.authenticated == 0)
  {
    var c' := Step(c, e);
    match e
    case Receive(id, error) =>
      if id in c.completions && c.completions[id] == Hello {
        var i := MatchedWasSent(c.wire, id);
        assert Asks(c.wire[i]);
      }
    case SendNext =>
      if c.sendCh != [] {
        assert forall i | 0 <= i < |c.sendCh| - 1 :: c'.sendCh[i] == c.sendCh[i + 1];
      }
    case Stage(id) =>
      if id in c.unstaged {
        assert forall i | 0 <= i < |c.sendCh| :: c'.sendCh[i] == c.sendCh[i];
      }
    case Respond(_) => assert forall i | 0 <= i < |c.sendCh| :: c'.sendCh[i] == c.sendCh[i];
    case Allocate(_) =>
  }

  /** The hypothesis matters: a heartbeat whose answer is lost to a response the session sent meanwhile. */
  lemma ReplyHidesRequest()
    ensures exists events, i: nat, j: nat ::
              var wire := RunCorrelator(events).wire;
              && i < j < |wire| && SentRequest(wire, i, 2, Heartbeat) && wire[j] == Got(2, false)
              && Matched(wire[..j], 2) == Some(NoMethod)
  {
    var events := HeartbeatAnswered();
    hide RunCorrelator;
    var wire := RunCorrelator(events).wire;
    assert wire[..4][3] == wire[3] == Sent(Out(2, NoMethod)) && |wire[..4]| == 4;
    assert Matched(wire[..4], 2) == Some(NoMethod) && wire[4] == Got(2, false) && SentRequest(wire, 2, 2, Heartbeat);
  }

  lemma HeartbeatAnswered() returns (events: seq<Event>)
    ensures RunCorrelator(events).wire ==
              [Sent(Out(1, Hello)), Got(1, false), Sent(Out(2, Heartbeat)), Sent(Out(2, NoMethod)), Got(2, false)]
  {
    var shaken := HandshakeDone();
    var asked := shaken + [Allocate(Heartbeat)] + [Stage(2)] + [SendNext];
    RunOne(shaken, Allocate(Heartbeat));
    RunOne(shaken + [Allocate(Heartbeat)], Stage(2));
    RunOne(shaken + [Allocate(Heartbeat)] + [Stage(2)], SendNext);
    RunOne(asked, Respond(2));
    RunOne(asked + [Respond(2)], SendNext);
    RunOne(asked + [Respond(2)] + [SendNext], Receive(2, false));
    events := asked + [Respond(2)] + [SendNext] + [Receive(2, false)];
  }

  lemma HandshakeDone() returns (events: seq<Event>)
    ensures RunCorrelator(events) == Correlator(1, map[], [], map[], 1, [Sent(Out(1, Hello)), Got(1, false)])
  {
    RunOne([], Allocate(Hello));
    assert [] + [Allocate(Hello)] == [Allocate(Hello)];
    RunOne([Allocate(Hello)], Stage(1));
    RunOne([Allocate(Hello)] + [Stage(1)], SendNext);
    RunOne([Allocate(Hello)] + [Stage(1)] + [SendNext], Receive(1, false));
    events := [Allocate(Hello)] + [Stage(1)] + [SendNext] + [Receive(1, false)];
  }

  lemma RunOne(events: seq<Event>, e: Event)
    ensures RunCorrelator(events + [e]) == Step(RunCorrelator(events), e)
  {
    assert (events + [e])[..|events|] == events;
  }

  // ---- the session's sending and response handling ----

  /** The part of the session that tracks requests. `unstaged` and `wire` only record what happens. */
  class RequestTracker {
    var seqId: nat
    var sendCh: seq<Out>
    var completions: map<nat, Method>
    var authTimerRunning: bool
    var heartbeatsStarted: bool
    var authenticated: nat
    ghost var unstaged: map<nat, Method>
    ghost var wire: seq<Traffic>

    ghost function View(): Correlator
      reads this
    {
      Correlator(seqId, unstaged, sendCh, completions, authenticated, wire)
    }

    constructor ()
      ensures View() == Opened
      ensures !authTimerRunning && !heartbeatsStarted
    {
      seqId, sendCh, completions := 0, [], map[];
      authTimerRunning, heartbeatsStarted, authenticated := false, false, 0;
      unstaged, wire := map[], [];
    }

    /** Done once, when the session is made; it asks for the first id. */
    method Auth(timeoutAuth: bool)
      requires seqId == 0
      modifies this
      ensures View() == Step(Step(old(View()), Allocate(Hello)), Stage(1))
      ensures sendCh == old(sendCh) + [Out(1, Hello)]
      ensures authTimerRunning == (old(authTimerRunning) || timeoutAuth) && heartbeatsStarted == old(heartbeatsStarted)
    {
      Send(0, Hello);
      if timeoutAuth {
        authTimerRunning := true;
      }
    }

    method SetId(op: Method) returns (id: nat)
      requires op != NoMethod && (op == Hello <==> seqId == 0)
      modifies this`seqId, this`unstaged
      ensures View() == Step(old(View()), Allocate(op)) && id == seqId
    {
      seqId := seqId + 1;
      id := seqId;
      unstaged := unstaged[id := op];
    }

    /** A request whose id is still zero gets one first. */
    method Send(id: nat, op: Method)
      requires op != NoMethod
      requires if id == 0 then op == Hello <==> seqId == 0 else id in unstaged && unstaged[id] == op
      modifies this`seqId, this`unstaged, this`sendCh
      ensures id != 0 ==> View() == Step(old(View()), Stage(id))
      ensures id == 0 ==> View() == Step(Step(old(View()), Allocate(op)), Stage(seqId))
    {
      var used := id;
      if id == 0 {
        used := SetId(op);
      }
      unstaged := unstaged - {used};
      sendCh := sendCh + [Out(used, op)];
    }

    method SendResponse(id: nat)
      modifies this`sendCh
      ensures View() == Step(old(View()), Respond(id))
    {
      sendCh := sendCh + [Out(id, NoMethod)];
    }

    /** One turn of the sending loop: the frame is noted as a completion whatever kind it is. */
    method SendFrame()
      requires sendCh != []
      modifies this`sendCh, this`completions, this`wire
      ensures View() == Step(old(View()), SendNext)
    {
      var frame := sendCh[0];
      sendCh := sendCh[1..];
      completions := completions[frame.id := frame.op];
      wire := wire + [Sent(frame)];
    }

    method GetCompletionRequest(id: nat) returns (req: Option<Method>)
      modifies this`completions
      ensures completions == old(completions) - {id}
      ensures req == if id in old(completions) then Some(old(completions)[id]) else None
    {
      if id !in completions {
        return None;
      }
      req := Some(completions[id]);
      completions := completions - {id};
    }

    /** `dispatched` is the method the response was taken to answer. */
    method HandleResponse(id: nat, error: bool) returns (dispatched: Option<Method>)
      modifies this
      ensures View() == Step(old(View()), Receive(id, error))
      ensures dispatched == if id in old(completions) then Some(old(completions)[id]) else None
      ensures heartbeatsStarted == (old(heartbeatsStarted) || (dispatched == Some(Hello) && !error))
      ensures authTimerRunning == (old(authTimerRunning) && dispatched != Some(Hello))
    {
      wire := wire + [Got(id, error)];
      dispatched := GetCompletionRequest(id);
      if dispatched == Some(Hello) {
        authTimerRunning := false;
        if !error {
          heartbeatsStarted := true;
          authenticated := authenticated + 1;
        }
      }
    }
  }
}
