/** The messages exchanged by an endpoint and a poller while checks are prepared and committed.
    Fields the modelled code never branches on are carried as opaque text. */
module Protocol {

  datatype Option<+T> = None | Some(value: T)

  /** The raw details of a check: absent, present but not decodable as the details of its type,
      or decodable. Decoding itself is library code. */
  datatype Details = Absent | Malformed(text: string) | Decodable(text: string)

  /** A check definition. `settings` stands for the header fields other than the four named here. */
  datatype CheckIn = CheckIn(
    id: string, checkType: string, entityId: string, zoneId: string, settings: string, details: Details)

  /** What a manifest asks for a check. `Unsupported` is any action text the poller does not know. */
  datatype Action = Start | Restart | Continue | Unsupported(text: string)

  datatype ManifestEntry = ManifestEntry(
    action: Action, id: string, checkType: string, entityId: string, zoneId: string)

  datatype Directive = DirectivePrepare | DirectiveAbort | DirectiveOther(text: string)

  /** Requests from the endpoint to the poller. A null block has a JSON null after the given definitions. */
  datatype Request =
    | PollerPrepare(id: nat, zoneId: string, version: int, manifest: seq<ManifestEntry>)
    | PollerPrepareBlock(id: nat, zoneId: string, version: int, block: seq<CheckIn>)
    | PollerPrepareNullBlock(id: nat, zoneId: string, version: int, before: seq<CheckIn>)
    | PollerPrepareEnd(id: nat, zoneId: string, version: int, directive: Directive)
    | PollerCommit(id: nat, zoneId: string, version: int)

  datatype Status = Prepared | Aborted | Failed | Ignored | Committed | OtherStatus(text: string)

  /** Replies from the poller. `Undecodable` is a response frame whose result does not decode. */
  datatype Response =
    | Result(id: nat, zoneId: string, version: int, status: Status)
    | Undecodable(id: nat)

  predicate KnownType(c: CheckIn) {
    c.checkType in {"remote.tcp", "remote.http", "remote.ping", "agent.plugin"}
  }

  /** The checks poller and endpoint can build: a known type with decodable details. */
  predicate Parses(c: CheckIn) {
    KnownType(c) && c.details.Decodable?
  }

  function Ids(checks: seq<CheckIn>): set<string> {
    set i | 0 <= i < |checks| :: checks[i].id
  }

  function Flatten<T>(blocks: seq<seq<T>>): seq<T> {
    if |blocks| == 0 then [] else Flatten(blocks[..|blocks| - 1]) + blocks[|blocks| - 1]
  }

  lemma {:induction false} FlattenConcat<T>(a: seq<seq<T>>, b: seq<seq<T>>)
    ensures Flatten(a + b) == Flatten(a) + Flatten(b)
  {
    if |b| == 0 {
      assert a + b == a;
    } else {
      var n := |b| - 1;
      FlattenConcat(a, b[..n]);
      assert (a + b)[..|a + b| - 1] == a + b[..n];
    }
  }
}
