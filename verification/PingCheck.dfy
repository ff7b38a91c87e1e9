/** The ping check: collecting responses into slots by sequence number, then summing them up. */
module PingChecks {
  import opened Protocol
  import opened Integers

  /** What one `Ping` returns. Round-trip times come from wall-clock differences and can be negative. */
  datatype Response = Response(sequence: int, rtt: int, timeout: bool, err: Option<string>)

  const DefaultPingCount := 6

  function Count(configured: int): (count: int)
    ensures count > 0
  {
    if configured <= 0 then DefaultPingCount else configured
  }

  predicate Usable(r: Response, count: nat) {
    r.err.None? && 1 <= r.sequence <= count
  }

  /** The first usable response with the given sequence number. */
  function First(rs: seq<Response>, count: nat, sequence: int): Option<Response> {
    if |rs| == 0 then None
    else
      var earlier := First(rs[..|rs| - 1], count, sequence);
      var r := rs[|rs| - 1];
      if earlier.None? && Usable(r, count) && r.sequence == sequence then Some(r) else earlier
  }

  /** The slots after all responses. */
  function Slots(rs: seq<Response>, count: nat): seq<Option<Response>> {
    seq(count, k => First(rs, count, k + 1))
  }

  /** The error of the last response that failed otherwise than by a time-out. */
  function LastError(rs: seq<Response>): Option<string> {
    if |rs| == 0 then None
    else
      var r := rs[|rs| - 1];
      if r.err.Some? && !r.timeout then r.err else LastError(rs[..|rs| - 1])
  }

  function Received(slots: seq<Option<Response>>): (n: nat)
    ensures n <= |slots|
  {
    if |slots| == 0 then 0
    else Received(slots[..|slots| - 1]) + if slots[|slots| - 1].Some? then 1 else 0
  }

  function Total(slots: seq<Option<Response>>): int {
    if |slots| == 0 then 0
    else Total(slots[..|slots| - 1]) + if slots[|slots| - 1].Some? then slots[|slots| - 1].value.rtt else 0
  }

  /** Figures of one check. */
  datatype Summary = Summary(sent: nat, received: nat, average: int, maximum: int, minimum: int)

  predicate Bounds(slots: seq<Option<Response>>, low: int, high: int) {
    && (forall s <- slots :: s.Some? ==> low <= s.value.rtt <= high)
    && (exists s <- slots :: s.Some? && s.value.rtt == low)
    && (exists s <- slots :: s.Some? && s.value.rtt == high)
  }

  /** The summary that the slots determine. */
  ghost predicate Summarizes(s: Summary, slots: seq<Option<Response>>) {
    && s.sent == |slots| && s.received == Received(slots)
    && if s.received == 0 then s.average == s.maximum == s.minimum == 0
       else Bounds(slots, s.minimum, s.maximum) && s.average == Quotient(Total(slots), s.received)
  }

  lemma SummaryIsUnique(a: Summary, b: Summary, slots: seq<Option<Response>>)
    requires Summarizes(a, slots) && Summarizes(b, slots)
    ensures a == b
  {
    if a.received > 0 {
      var x :| x in slots && x.Some? && x.value.rtt == a.minimum;
      var y :| y in slots && y.Some? && y.value.rtt == b.minimum;
      var u :| u in slots && u.Some? && u.value.rtt == a.maximum;
      var v :| v in slots && v.Some? && v.value.rtt == b.maximum;
    }
  }

  lemma {:induction false} TotalBetween(slots: seq<Option<Response>>, low: int, high: int)
    requires forall s <- slots :: s.Some? ==> low <= s.value.rtt <= high
    ensures low * Received(slots) <= Total(slots) <= high * Received(slots)
  {
    if |slots| > 0 {
      var n := |slots| - 1;
      TotalBetween(slots[..n], low, high);
      if slots[n].Some? {
        assert slots[n] in slots;
        assert low * (Received(slots[..n]) + 1) == low * Received(slots[..n]) + low;
        assert high * (Received(slots[..n]) + 1) == high * Received(slots[..n]) + high;
      }
    }
  }

  /** No more received than sent; if anything arrived the average lies between the extremes. */
  lemma SummaryBounds(s: Summary, slots: seq<Option<Response>>)
    requires Summarizes(s, slots)
    ensures s.received <= s.sent
    ensures s.received > 0 ==> s.minimum <= s.average <= s.maximum
    ensures s.received == 0 <==> forall k | 0 <= k < |slots| :: slots[k].None?
  {
    ReceivedNone(slots);
    if s.received > 0 {
      TotalBetween(slots, s.minimum, s.maximum);
      QuotientBetween(Total(slots), s.received, s.minimum, s.maximum);
    }
  }

  lemma {:induction false} ReceivedNone(slots: seq<Option<Response>>)
    ensures Received(slots) == 0 <==> forall k | 0 <= k < |slots| :: slots[k].None?
  {
    if |slots| > 0 {
      var n := |slots| - 1;
      ReceivedNone(slots[..n]);
      assert forall k | 0 <= k < n :: slots[..n][k] == slots[k];
    }
  }

  // ---- the order of arrival ----

  lemma {:induction false} FirstFound(rs: seq<Response>, count: nat, sequence: int)
    ensures var f := First(rs, count, sequence);
            && (f.Some? ==> f.value in rs && Usable(f.value, count) && f.value.sequence == sequence)
            && (f.None? ==> forall r <- rs :: !(Usable(r, count) && r.sequence == sequence))
  {
    if |rs| > 0 {
      var n := |rs| - 1;
      FirstFound(rs[..n], count, sequence);
      assert rs == rs[..n] + [rs[n]];
    }
  }

  /** Usable responses with the same sequence number do not differ. */
  ghost predicate Unambiguous(rs: seq<Response>, count: nat) {
    forall x, y | x in rs && y in rs && Usable(x, count) && Usable(y, count) && x.sequence == y.sequence :: x == y
  }

  /** Reordering arrivals, failures among them, changes no figure. */
  lemma OrderDoesNotMatter(a: seq<Response>, b: seq<Response>, count: nat)
    requires multiset(a) == multiset(b) && Unambiguous(a, count)
    ensures forall x, y | Summarizes(x, Slots(a, count)) && Summarizes(y, Slots(b, count)) :: x == y
  {
    hide Summarizes, Slots, Unambiguous;
    SameSlots(a, b, count);
    forall x, y | Summarizes(x, Slots(a, count)) && Summarizes(y, Slots(b, count)) ensures x == y {
      SummaryIsUnique(x, y, Slots(a, count));
    }
  }

  lemma SameSlots(a: seq<Response>, b: seq<Response>, count: nat)
    requires multiset(a) == multiset(b) && Unambiguous(a, count)
    ensures Slots(a, count) == Slots(b, count)
  {
    assert forall r :: (r in a <==> r in multiset(a)) && (r in b <==> r in multiset(b));
    forall k | 0 <= k < count ensures Slots(a, count)[k] == Slots(b, count)[k] {
      FirstFound(a, count, k + 1);
      FirstFound(b, count, k + 1);
    }
  }

  /** Without the hypothesis order matters: of two different responses with one number the first stays. */
  lemma FirstComesFirst(r: Response, s: Response, count: nat)
    requires Usable(r, count) && Usable(s, count) && r.sequence == s.sequence
    ensures First([r, s], count, r.sequence) == Some(r) && First([s, r], count, r.sequence) == Some(s)
  {
    assert [r, s][..1] == [r] && [s, r][..1] == [s];
    FirstAlone(r, count);
    FirstAlone(s, count);
  }

  lemma FirstAlone(r: Response, count: nat)
    requires Usable(r, count)
    ensures First([r], count, r.sequence) == Some(r)
  {
    assert First([r][..0], count, r.sequence) == None;
  }

  /** What a slot holds, from the responses alone: the first without an error that bears its number. */
  lemma SlotExactly(rs: seq<Response>, count: nat, k: nat)
    requires k < count
    ensures match Slots(rs, count)[k]
            case None => forall r <- rs :: r.err.Some? || r.sequence != k + 1
            case Some(r) => r.sequence == k + 1 && exists i :: FirstAt(rs, i, r)
  {
    FirstExactly(rs, count, k + 1);
  }

  /** `r`, without an error, is at `i`, and nothing before it without an error bears its number. */
  ghost predicate FirstAt(rs: seq<Response>, i: int, r: Response) {
    && 0 <= i < |rs| && rs[i] == r && r.err.None?
    && forall j | 0 <= j < i :: rs[j].err.Some? || rs[j].sequence != r.sequence
  }

  lemma {:induction false} FirstExactly(rs: seq<Response>, count: nat, sequence: int)
    requires 1 <= sequence <= count
    ensures match First(rs, count, sequence)
            case None => forall r <- rs :: r.err.Some? || r.sequence != sequence
            case Some(r) => r.sequence == sequence && exists i :: FirstAt(rs, i, r)
  {
    if |rs| > 0 {
      var n := |rs| - 1;
      FirstExactly(rs[..n], count, sequence);
      assert rs == rs[..n] + [rs[n]];
      match First(rs[..n], count, sequence)
      case None =>
        assert forall j | 0 <= j < n :: rs[j] == rs[..n][j] && rs[..n][j] in rs[..n];
        assert rs[n].err.None? && rs[n].sequence == sequence ==> FirstAt(rs, n, rs[n]);
      case Some(r) =>
        var i :| FirstAt(rs[..n], i, r);
        assert FirstAt(rs, i, r);
    }
  }

  predicate Fails(r: Response) { r.err.Some? && !r.timeout }

  /** The error kept is that of the last response that failed other than by a time-out; time-outs and responses
      without an error leave it as it was. */
  lemma {:induction false} LastErrorExactly(rs: seq<Response>)
    ensures match LastError(rs)
            case None => forall r <- rs :: !Fails(r)
            case Some(e) =>
              exists i | 0 <= i < |rs| :: Fails(rs[i]) && rs[i].err == Some(e) && forall j | i < j < |rs| :: !Fails(rs[j])
  {
    if |rs| > 0 {
      var n := |rs| - 1;
      LastErrorExactly(rs[..n]);
      assert forall j | 0 <= j < n :: rs[j] == rs[..n][j];
      if !Fails(rs[n]) && LastError(rs[..n]).Some? {
        var e := LastError(rs[..n]).value;
        var i :| 0 <= i < n && Fails(rs[..n][i]) && rs[..n][i].err == Some(e) && forall j | i < j < n :: !Fails(rs[..n][j]);
        assert Fails(rs[i]) && rs[i].err == Some(e);
      }
    }
  }

  /** The number received is the number of slots filled. */
  lemma {:induction false} ReceivedCounts(slots: seq<Option<Response>>)
    ensures Received(slots) == |set k | 0 <= k < |slots| && slots[k].Some?|
  {
    if |slots| > 0 {
      var n := |slots| - 1;
      ReceivedCounts(slots[..n]);
      var filled := set k | 0 <= k < n && slots[..n][k].Some?;
      assert (set k | 0 <= k < |slots| && slots[k].Some?) == filled + if slots[n].Some? then {n} else {};
    }
  }

  // ---- the loops ----

  /** `rs` are the responses obtained before the overall time-out; at most `responses.Length` are asked for. */
  method Collect(rs: seq<Response>, responses: array<Option<Response>>) returns (pingErr: Option<string>)
    requires |rs| <= responses.Length
    requires forall k | 0 <= k < responses.Length :: responses[k].None?
    modifies responses
    ensures responses[..] == Slots(rs, responses.Length)
    ensures pingErr == LastError(rs)
  {
    var count := responses.Length;
    pingErr := None;
    for i := 0 to |rs|
      invariant forall k | 0 <= k < count :: responses[k] == First(rs[..i], count, k + 1)
      invariant pingErr == LastError(rs[..i])
    {
      var resp := rs[i];
      assert rs[..i + 1][..i] == rs[..i];
      if resp.err.Some? {
        if !resp.timeout {
          pingErr := resp.err;
        }
        continue;
      }
      if resp.sequence <= 0 || resp.sequence > count {
        continue;
      }
      if responses[resp.sequence - 1].Some? {
        continue;
      }
      responses[resp.sequence - 1] := Some(resp);
    }
    assert rs[..|rs|] == rs;
  }

  method Summarize(responses: array<Option<Response>>) returns (s: Summary)
    ensures Summarizes(s, responses[..])
  {
    var count := responses.Length;
    var initial := true;
    var recv: nat := 0;
    var minRTT, maxRTT, avgRTT, totalRTT := 0, 0, 0, 0;
    for i := 0 to count
      invariant recv == Received(responses[..i]) && totalRTT == Total(responses[..i])
      invariant initial <==> recv == 0
      invariant recv == 0 ==> minRTT == maxRTT == 0
      invariant recv > 0 ==> Bounds(responses[..i], minRTT, maxRTT)
    {
      assert responses[..i + 1][..i] == responses[..i];
      assert responses[..i + 1] == responses[..i] + [responses[i]];
      if responses[i].Some? {
        recv := recv + 1;
        var rtt := responses[i].value.rtt;
        totalRTT := totalRTT + rtt;
        if initial {
          ReceivedNone(responses[..i]);
          minRTT, maxRTT, initial := rtt, rtt, false;
        } else {
          if rtt > maxRTT {
            maxRTT := rtt;
          }
          if rtt < minRTT {
            minRTT := rtt;
          }
        }
      }
    }
    assert responses[..count] == responses[..];
    if recv > 0 {
      avgRTT := Quotient(totalRTT, recv);
    }
    s := Summary(count, recv, avgRTT, maxRTT, minRTT);
  }

  datatype Availability = Available | NoResponses | Unavailable(error: string)

  /** A whole check. Available means something arrived and nothing but time-outs went wrong. */
  method Run(configured: int, rs: seq<Response>) returns (s: Summary, state: Availability)
    requires |rs| <= Count(configured)
    ensures Summarizes(s, Slots(rs, Count(configured))) && s.sent == if configured > 0 then configured else 6
    ensures state == match LastError(rs) case Some(e) => Unavailable(e) case None => if s.received > 0 then Available else NoResponses
  {
    var count := Count(configured);
    var responses := new Option<Response>[count](_ => None);
    var pingErr := Collect(rs, responses);
    s := Summarize(responses);
    if pingErr.None? && s.received > 0 {
      state := Available;
    } else if pingErr.None? {
      state := NoResponses;
    } else {
      state := Unavailable(pingErr.value);
    }
  }
}
