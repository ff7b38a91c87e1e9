/** Connections to endpoints: one loop per configured address, and a coordinator that keeps the table of
    registered connections. */
module ConnectionStreams {
  import opened Protocol
  import opened ChecksPreparations
  import opened Schedulers

  /** A connection and the poller GUID it was made with. Numbers tell connections apart. */
  datatype Connection = Connection(number: nat, guid: nat)

  datatype Registration = Registration(register: bool, addr: string, conn: Connection)

  /** A host loop: about to connect, connecting, or connected and possibly registered. */
  datatype Host = Idle | Dialing(conn: Connection) | Up(conn: Connection, registered: bool)

  /** `announced` records the numbers of all connections whose loop ever registered them. */
  datatype Stream = Stream(
    addrs: seq<string>,
    hosts: seq<Host>,
    registrations: seq<Registration>,
    conns: map<string, Connection>,
    guid: nat,
    made: nat,
    resets: nat,
    allLost: nat,
    announced: set<nat>)

  datatype Event =
    | Make(host: nat)
    | Established(host: nat, ok: bool)
    | Authenticated(host: nat)
    | Lost(host: nat)
    | Coordinate

  function NewStream(addrs: seq<string>): Stream {
    Stream(addrs, seq(|addrs|, _ => Idle), [], map[], 0, 0, 0, 0, {})
  }

  function Register(s: Stream, addr: string, conn: Connection): Stream {
    s.(conns := s.conns[addr := conn])
  }

  /** The connection to be deregistered is not compared with the one in the table. */
  function Deregister(s: Stream, addr: string): Stream {
    if addr !in s.conns then s
    else
      var left := s.conns - {addr};
      if left == map[] then s.(conns := left, resets := s.resets + 1, allLost := s.allLost + 1, guid := s.guid + 1)
      else s.(conns := left)
  }

  function Step(s: Stream, e: Event): Stream
    requires |s.hosts| == |s.addrs|
  {
    match e
    case Make(i) =>
      if i < |s.hosts| && s.hosts[i].Idle? then
        s.(hosts := s.hosts[i := Dialing(Connection(s.made, s.guid))], made := s.made + 1)
      else s
    case Established(i, ok) =>
      if i < |s.hosts| && s.hosts[i].Dialing? then
        s.(hosts := s.hosts[i := if ok then Up(s.hosts[i].conn, false) else Idle])
      else s
    case Authenticated(i) =>
      if i < |s.hosts| && s.hosts[i].Up? && !s.hosts[i].registered then
        s.(hosts := s.hosts[i := Up(s.hosts[i].conn, true)], announced := s.announced + {s.hosts[i].conn.number},
           registrations := s.registrations + [Registration(true, s.addrs[i], s.hosts[i].conn)])
      else s
    case Lost(i) =>
      if i < |s.hosts| && s.hosts[i].Up? then
        s.(hosts := s.hosts[i := Idle],
           registrations := s.registrations + [Registration(false, s.addrs[i], s.hosts[i].conn)])
      else s
    case Coordinate =>
      if s.registrations == [] then s
      else
        var r, rest := s.registrations[0], s.(registrations := s.registrations[1..]);
        if r.register then Register(rest, r.addr, r.conn) else Deregister(rest, r.addr)
  }

  function RunStream(addrs: seq<string>, events: seq<Event>): (s: Stream)
    ensures s.addrs == addrs && |s.hosts| == |addrs|
  {
    if |events| == 0 then NewStream(addrs)
    else Step(RunStream(addrs, events[..|events| - 1]), events[|events| - 1])
  }

  // ---- with distinct addresses ----

  predicate Distinct(addrs: seq<string>) {
    forall i, j | 0 <= i < j < |addrs| :: addrs[i] != addrs[j]
  }

  function Entry(conns: map<string, Connection>, addr: string): Option<Connection> {
    if addr in conns then Some(conns[addr]) else None
  }

  function Announced(h: Host): Option<Connection> {
    if h.Up? && h.registered then Some(h.conn) else None
  }

  /** Seen from one address, what the channel holds leads from `now` to `finally`: connections are registered
      when none is, and deregistered only when they themselves or none is. */
  predicate LeadsTo(now: Option<Connection>, rs: seq<Registration>, addr: string, finally: Option<Connection>)
    decreases rs
  {
    if rs == [] then now == finally
    else if rs[0].addr != addr then LeadsTo(now, rs[1..], addr, finally)
    else if rs[0].register then now.None? && LeadsTo(Some(rs[0].conn), rs[1..], addr, finally)
    else now in {None, Some(rs[0].conn)} && LeadsTo(None, rs[1..], addr, finally)
  }

  ghost predicate Coherent(s: Stream) {
    && |s.hosts| == |s.addrs|
    && (forall r <- s.registrations :: r.addr in s.addrs)
    && (forall a <- s.conns :: a in s.addrs)
    && (forall i | 0 <= i < |s.addrs| ::
          LeadsTo(Entry(s.conns, s.addrs[i]), s.registrations, s.addrs[i], Announced(s.hosts[i])))
  }

  lemma {:induction false} LeadsFurther(now: Option<Connection>, rs: seq<Registration>, addr: string, finally: Option<Connection>, r: Registration)
    requires LeadsTo(now, rs, addr, finally)
    ensures r.addr != addr ==> LeadsTo(now, rs + [r], addr, finally)
    ensures r.addr == addr && r.register && finally.None? ==> LeadsTo(now, rs + [r], addr, Some(r.conn))
    ensures r.addr == addr && !r.register && finally in {None, Some(r.conn)} ==> LeadsTo(now, rs + [r], addr, None)
    decreases rs
  {
    if rs == [] {
      assert rs + [r] == [r] && [r][1..] == [];
    } else {
      assert (rs + [r])[1..] == rs[1..] + [r];
      var next := if rs[0].addr != addr then now else if rs[0].register then Some(rs[0].conn) else None;
      LeadsFurther(next, rs[1..], addr, finally, r);
    }
  }

  lemma CoherentStep(s: Stream, e: Event)
    requires Coherent(s) && Distinct(s.addrs)
    ensures Coherent(Step(s, e))
  {
    match e
    case Make(_) =>
    case Established(_, _) =>
    case Authenticated(i) =>
      if i < |s.hosts| && s.hosts[i].Up? && !s.hosts[i].registered {
        AnnounceStep(s, i, Registration(true, s.addrs[i], s.hosts[i].conn), Up(s.hosts[i].conn, true));
      }
    case Lost(i) =>
      if i < |s.hosts| && s.hosts[i].Up? {
        AnnounceStep(s, i, Registration(false, s.addrs[i], s.hosts[i].conn), Idle);
      }
    case Coordinate => CoordinateStep(s);
  }

  lemma AnnounceStep(s: Stream, i: nat, r: Registration, h: Host)
    requires Coherent(s) && Distinct(s.addrs) && i < |s.addrs| && r.addr == s.addrs[i]
    requires s.hosts[i].Up? && r.conn == s.hosts[i].conn
    requires if r.register then !s.hosts[i].registered && h == Up(r.conn, true) else h == Idle
    ensures Coherent(s.(hosts := s.hosts[i := h], registrations := s.registrations + [r]))
  {
    var hosts' := s.hosts[i := h];
    forall k | 0 <= k < |s.addrs|
      ensures LeadsTo(Entry(s.conns, s.addrs[k]), s.registrations + [r], s.addrs[k], Announced(hosts'[k]))
    {
      LeadsFurther(Entry(s.conns, s.addrs[k]), s.registrations, s.addrs[k], Announced(s.hosts[k]), r);
    }
  }

  lemma CoordinateStep(s: Stream)
    requires Coherent(s) && Distinct(s.addrs)
    ensures Coherent(Step(s, Coordinate))
  {
    if s.registrations != [] {
      var s' := Step(s, Coordinate);
      forall k | 0 <= k < |s.addrs|
        ensures LeadsTo(Entry(s'.conns, s.addrs[k]), s'.registrations, s.addrs[k], Announced(s.hosts[k]))
      {
        assert LeadsTo(Entry(s.conns, s.addrs[k]), s.registrations, s.addrs[k], Announced(s.hosts[k]));
      }
    }
  }

  lemma {:induction false} RunCoherent(addrs: seq<string>, events: seq<Event>)
    requires Distinct(addrs)
    ensures Coherent(RunStream(addrs, events))
  {
    if |events| > 0 {
      RunCoherent(addrs, events[..|events| - 1]);
      CoherentStep(RunStream(addrs, events[..|events| - 1]), events[|events| - 1]);
    }
  }

  lemma {:induction false} EntriesWereAnnounced(addrs: seq<string>, events: seq<Event>)
    ensures var s := RunStream(addrs, events);
            && (forall a <- s.conns :: s.conns[a].number in s.announced)
            && (forall r <- s.registrations :: r.register ==> r.conn.number in s.announced)
  {
    if |events| > 0 {
      EntriesWereAnnounced(addrs, events[..|events| - 1]);
      var s := RunStream(addrs, events[..|events| - 1]);
      assert s.registrations != [] ==> s.registrations[0] in s.registrations;
    }
  }

  /** The next registration, if it is a deregistration, takes out its own connection or nothing. */
  predicate TakesOutItsOwn(s: Stream) {
    s.registrations != [] && !s.registrations[0].register ==>
      Entry(s.conns, s.registrations[0].addr) in {None, Some(s.registrations[0].conn)}
  }

  lemma DeregistersItself(addrs: seq<string>, events: seq<Event>)
    requires Distinct(addrs)
    ensures TakesOutItsOwn(RunStream(addrs, events))
  {
    RunCoherent(addrs, events);
    var s := RunStream(addrs, events);
    if s.registrations != [] {
      assert s.registrations[0] in s.registrations;
      var i :| 0 <= i < |s.addrs| && s.addrs[i] == s.registrations[0].addr;
      assert LeadsTo(Entry(s.conns, s.addrs[i]), s.registrations, s.addrs[i], Announced(s.hosts[i]));
    }
  }

  /** In every run with distinct addresses the loss of a connection that was never registered disturbs no other
      connection and triggers nothing. */
  lemma UnannouncedLossIsSilent(addrs: seq<string>, events: seq<Event>)
    requires Distinct(addrs)
    ensures var s := RunStream(addrs, events);
            s.registrations != [] && !s.registrations[0].register && s.registrations[0].conn.number !in s.announced ==>
              Step(s, Coordinate) == s.(registrations := s.registrations[1..])
  {
    DeregistersItself(addrs, events);
    EntriesWereAnnounced(addrs, events);
  }

  /** Once the channel is empty the table holds exactly the authenticated live connections. */
  lemma TableIsExact(addrs: seq<string>, events: seq<Event>, i: nat)
    requires Distinct(addrs) && i < |addrs|
    ensures var s := RunStream(addrs, events);
            s.registrations == [] ==> Entry(s.conns, addrs[i]) == Announced(s.hosts[i])
  {
    RunCoherent(addrs, events);
  }

  // ---- losing all connections ----

  /** How often in the run the table went from non-empty to empty. */
  ghost function TimesEmptied(addrs: seq<string>, events: seq<Event>): nat {
    if |events| == 0 then 0
    else
      var n := |events| - 1;
      TimesEmptied(addrs, events[..n])
      + if RunStream(addrs, events[..n]).conns != map[] && RunStream(addrs, events).conns == map[] then 1 else 0
  }

  /** Resets, notices of total loss and new GUIDs come exactly with these moments. */
  lemma {:induction false} ResetsExactlyWhenEmptied(addrs: seq<string>, events: seq<Event>)
    ensures var s := RunStream(addrs, events);
            s.resets == s.allLost == s.guid == TimesEmptied(addrs, events)
  {
    if |events| > 0 {
      ResetsExactlyWhenEmptied(addrs, events[..|events| - 1]);
    }
  }

  predicate Carries(h: Host, number: nat) { !h.Idle? && h.conn.number == number }

  ghost predicate NumbersUsed(s: Stream) {
    && (forall i | 0 <= i < |s.hosts| && !s.hosts[i].Idle? :: s.hosts[i].conn.number < s.made)
    && (forall n <- s.announced :: n < s.made)
  }

  lemma NumbersStep(s: Stream, e: Event)
    requires |s.hosts| == |s.addrs| && NumbersUsed(s)
    ensures NumbersUsed(Step(s, e))
  {
  }

  lemma {:induction false} NumbersAreUsed(addrs: seq<string>, events: seq<Event>)
    ensures NumbersUsed(RunStream(addrs, events))
  {
    if |events| > 0 {
      hide NumbersUsed;
      NumbersAreUsed(addrs, events[..|events| - 1]);
      NumbersStep(RunStream(addrs, events[..|events| - 1]), events[|events| - 1]);
    }
  }

  /** In every run, a new connection is another than all that are there or were ever registered, and bears the GUID
      that has been replaced as often as all connections were lost. */
  lemma NewConnectionIsNew(addrs: seq<string>, events: seq<Event>, i: nat)
    requires i < |addrs| && RunStream(addrs, events).hosts[i].Idle?
    ensures var s, s' := RunStream(addrs, events), RunStream(addrs, events + [Make(i)]);
            && s'.hosts[i].Dialing? && s'.hosts == s.hosts[i := s'.hosts[i]]
            && s'.hosts[i].conn.guid == TimesEmptied(addrs, events)
            && s'.hosts[i].conn.number !in s.announced
            && forall j | 0 <= j < |addrs| :: !Carries(s.hosts[j], s'.hosts[i].conn.number)
  {
    RunOne(addrs, events, Make(i));
    ResetsExactlyWhenEmptied(addrs, events);
    NumbersAreUsed(addrs, events);
  }

  lemma RunOne(addrs: seq<string>, events: seq<Event>, e: Event)
    ensures RunStream(addrs, events + [e]) == Step(RunStream(addrs, events), e)
  {
    assert (events + [e])[..|events|] == events;
  }

  /** Deregistrations take out only their own connections, in every run, exactly if the addresses are distinct. */
  lemma DeregistersItselfIff(addrs: seq<string>)
    ensures Distinct(addrs) <==> forall events :: TakesOutItsOwn(RunStream(addrs, events))
  {
    if Distinct(addrs) {
      forall events ensures TakesOutItsOwn(RunStream(addrs, events)) {
        DeregistersItself(addrs, events);
      }
    } else {
      var i, j :| 0 <= i < j < |addrs| && addrs[i] == addrs[j];
      var _ := DuplicateAddressBreaks(addrs, i, j);
    }
  }

  /** With any address listed twice, losing one connection throws out the other, live one and resets the
      schedulers. */
  lemma DuplicateAddressBreaks(addrs: seq<string>, i: nat, j: nat) returns (events: seq<Event>)
    requires i < j < |addrs| && addrs[i] == addrs[j]
    ensures var s := RunStream(addrs, events);
            && !TakesOutItsOwn(s)
            && s.hosts[j].Up? && s.hosts[j].registered && s.conns == map[addrs[j] := s.hosts[j].conn]
            && Step(s, Coordinate).hosts == s.hosts && Step(s, Coordinate).conns == map[]
            && Step(s, Coordinate).resets == s.resets + 1
  {
    var up := BothUp(addrs, i, j);
    var known := up + [Coordinate] + [Coordinate];
    RunOne(addrs, up, Coordinate);
    RunOne(addrs, up + [Coordinate], Coordinate);
    RunOne(addrs, known, Lost(i));
    events := known + [Lost(i)];
    var s := RunStream(addrs, events);
    assert s.registrations == [Registration(false, addrs[i], Connection(0, 0))];
    assert s.conns == map[addrs[j] := Connection(1, 0)];
  }

  lemma BothUp(addrs: seq<string>, i: nat, j: nat) returns (up: seq<Event>)
    requires i < j < |addrs|
    ensures var s := RunStream(addrs, up);
            && s.hosts[i] == Up(Connection(0, 0), true) && s.hosts[j] == Up(Connection(1, 0), true)
            && s.registrations == [Registration(true, addrs[i], Connection(0, 0)), Registration(true, addrs[j], Connection(1, 0))]
            && s.conns == map[]
  {
    var one := [] + [Make(i)] + [Established(i, true)] + [Authenticated(i)];
    OneUp(addrs, [], i);
    OneUp(addrs, one, j);
    up := one + [Make(j)] + [Established(j, true)] + [Authenticated(j)];
  }

  lemma OneUp(addrs: seq<string>, events: seq<Event>, i: nat)
    requires i < |addrs| && RunStream(addrs, events).hosts[i] == Idle
    ensures var s, s' := RunStream(addrs, events),
                         RunStream(addrs, events + [Make(i)] + [Established(i, true)] + [Authenticated(i)]);
            var conn := Connection(s.made, s.guid);
            && s'.hosts == s.hosts[i := Up(conn, true)] && s'.made == s.made + 1 && s'.guid == s.guid
            && s'.registrations == s.registrations + [Registration(true, addrs[i], conn)] && s'.conns == s.conns
  {
    RunOne(addrs, events, Make(i));
    RunOne(addrs, events + [Make(i)], Established(i, true));
    RunOne(addrs, events + [Make(i)] + [Established(i, true)], Authenticated(i));
  }

  // ---- choosing a connection ----

  const MaxInt64: int := 0x7FFF_FFFF_FFFF_FFFF

  /** A connection with the latency its session measured last, if any. */
  datatype Candidate = Candidate(conn: Connection, latency: Option<int>)

  datatype Delivery = SentBy(conn: Connection) | Dropped | LostSilently

  predicate Eligible(c: Candidate) { c.latency.Some? && c.latency.value < MaxInt64 }

  /** Candidates are visited in an arbitrary order. */
  method ChooseBest(conns: map<string, Candidate>) returns (best: Option<Candidate>)
    ensures best.None? <==> forall a <- conns :: !Eligible(conns[a])
    ensures best.Some? ==>
              && (exists a <- conns :: conns[a] == best.value)
              && Eligible(best.value)
              && forall a <- conns :: conns[a].latency.Some? ==> best.value.latency.value <= conns[a].latency.value
  {
    var minLatency := MaxInt64;
    best := None;
    var todo := conns.Keys;
    while todo != {}
      invariant todo <= conns.Keys && minLatency <= MaxInt64
      invariant best.None? <==> minLatency == MaxInt64
      invariant best.Some? ==> best.value.latency == Some(minLatency) && exists a <- conns :: conns[a] == best.value
      invariant forall a <- conns.Keys - todo :: conns[a].latency.Some? ==> minLatency <= conns[a].latency.value
    {
      var a :| a in todo;
      todo := todo - {a};
      var c := conns[a];
      if c.latency.Some? {
        var latency := c.latency.value;
        if latency < minLatency {
          minLatency := latency;
          best := Some(c);
        }
      }
    }
  }

  /** Metrics are reported as dropped only without any connection; with connections none of which has been
      measured they go nowhere and nothing is reported. */
  method SendMetrics(conns: map<string, Candidate>) returns (d: Delivery)
    ensures d == Dropped <==> conns == map[]
    ensures d == LostSilently <==> conns != map[] && forall a <- conns :: !Eligible(conns[a])
    ensures d.SentBy? ==>
              exists a <- conns ::
                && conns[a].conn == d.conn && Eligible(conns[a])
                && forall b <- conns :: conns[b].latency.Some? ==> conns[a].latency.value <= conns[b].latency.value
  {
    if |conns| == 0 {
      return Dropped;
    }
    var best := ChooseBest(conns);
    if best.None? {
      return LostSilently;
    }
    d := SentBy(best.value.conn);
  }

  // ---- the stream object ----

  datatype Emitted = Registered(conn: Connection) | Deregistered(conn: Connection) | AllConnectionsLost

  class EleConnectionStream {
    var conns: map<string, Connection>
    var configGuid: nat
    var emitted: seq<Emitted>
    const schedulers: map<string, EleScheduler>

    ghost predicate Separate() {
      forall y, z | y in schedulers && z in schedulers && y != z :: schedulers[y] != schedulers[z]
    }

    constructor (schedulers: map<string, EleScheduler>)
      ensures this.schedulers == schedulers && conns == map[] && configGuid == 0 && emitted == []
    {
      this.schedulers := schedulers;
      conns, configGuid, emitted := map[], 0, [];
    }

    method RegisterConnection(addr: string, conn: Connection)
      modifies this`conns, this`emitted
      ensures conns == old(conns)[addr := conn] && emitted == old(emitted) + [Registered(conn)]
    {
      conns := conns[addr := conn];
      emitted := emitted + [Registered(conn)];
    }

    method ResetSchedulers()
      requires Separate()
      modifies set z | z in schedulers :: schedulers[z]
      ensures forall z <- schedulers ::
                schedulers[z].resets == old(schedulers[z].resets) + 1
                && schedulers[z].View() == old(schedulers[z].View())
                && schedulers[z].preparations == old(schedulers[z].preparations)
    {
      var todo := schedulers.Keys;
      while todo != {}
        invariant todo <= schedulers.Keys
        invariant forall z <- schedulers ::
                    && schedulers[z].resets == old(schedulers[z].resets) + (if z in todo then 0 else 1)
                    && schedulers[z].View() == old(schedulers[z].View())
                    && schedulers[z].preparations == old(schedulers[z].preparations)
      {
        var z :| z in todo;
        todo := todo - {z};
        schedulers[z].RequestReset();
      }
    }

    method DeregisterConnection(addr: string, conn: Connection)
      requires Separate()
      modifies this, set z | z in schedulers :: schedulers[z]
      ensures conns == old(conns) - {addr}
      ensures addr !in old(conns) ==> emitted == old(emitted)
      ensures addr in old(conns) ==>
                emitted == old(emitted) + [Deregistered(conn)] + if conns == map[] then [AllConnectionsLost] else []
      ensures var emptied := old(conns) != map[] && conns == map[];
              && configGuid == old(configGuid) + (if emptied then 1 else 0)
              && forall z <- schedulers ::
                   && schedulers[z].resets == old(schedulers[z].resets) + (if emptied then 1 else 0)
                   && schedulers[z].View() == old(schedulers[z].View())
    {
      if addr in conns {
        conns := conns - {addr};
        emitted := emitted + [Deregistered(conn)];
        if |conns| == 0 {
          ResetSchedulers();
          emitted := emitted + [AllConnectionsLost];
          configGuid := configGuid + 1;
        }
      }
    }

    /** Every scheduler gets the preparation, once, at the end of its queue. */
    method ReconcileChecks(cp: ChecksPreparation)
      requires Separate()
      modifies set z | z in schedulers :: schedulers[z]
      ensures forall z <- schedulers ::
                && schedulers[z].preparations == old(schedulers[z].preparations) + [cp]
                && schedulers[z].View() == old(schedulers[z].View())
                && schedulers[z].resets == old(schedulers[z].resets)
    {
      var todo := schedulers.Keys;
      while todo != {}
        invariant todo <= schedulers.Keys
        invariant forall z <- schedulers ::
                    && schedulers[z].preparations == old(schedulers[z].preparations) + (if z in todo then [] else [cp])
                    && schedulers[z].View() == old(schedulers[z].View())
                    && schedulers[z].resets == old(schedulers[z].resets)
      {
        var z :| z in todo;
        todo := todo - {z};
        schedulers[z].ReconcileChecks(cp);
      }
    }

    method ValidateChecks(cp: ChecksPreparation) returns (ok: bool)
      ensures ok <==> forall z <- schedulers :: Accepts(schedulers[z].checks.Keys, cp.View())
    {
      var todo := schedulers.Keys;
      while todo != {}
        invariant todo <= schedulers.Keys
        invariant forall z <- schedulers.Keys - todo :: Accepts(schedulers[z].checks.Keys, cp.View())
      {
        var z :| z in todo;
        todo := todo - {z};
        var accepted := schedulers[z].ValidateChecks(cp);
        if !accepted {
          return false;
        }
      }
      ok := true;
    }
  }
}
