/** The preparation a poller accumulates from a manifest and the blocks of definitions that follow it. */
module ChecksPreparations {
  import opened Protocol

  datatype ActionType = TypeUnknown | TypeStart | TypeRestart | TypeContinue

  datatype ActionableCheck = ActionableCheck(checkIn: CheckIn, action: ActionType, populated: bool)

  type Actions = map<string, ActionableCheck>

  /** The value of a preparation at one moment. */
  datatype Prep = Prep(zoneId: string, version: int, actions: Actions)

  const NoCheck := CheckIn("", "", "", "", "", Absent)

  function MapToActionType(a: Action): ActionType {
    match a
    case Start => TypeStart
    case Restart => TypeRestart
    case Continue => TypeContinue
    case Unsupported(_) => TypeUnknown
  }

  predicate AllSupported(manifest: seq<ManifestEntry>) {
    forall i | 0 <= i < |manifest| :: !manifest[i].action.Unsupported?
  }

  predicate VersionApplies(p: Option<Prep>, version: int) {
    p.Some? && p.value.version == version
  }

  predicate IsNewer(p: Option<Prep>, version: int) {
    p.None? || version > p.value.version
  }

  predicate IsOlder(p: Option<Prep>, version: int) {
    p.Some? && version < p.value.version
  }

  function Declare(actions: Actions, m: ManifestEntry): Actions {
    actions[m.id := ActionableCheck(CheckIn(m.id, m.checkType, m.entityId, m.zoneId, "", Absent),
                                    MapToActionType(m.action), m.action == Continue)]
  }

  function DeclareAll(manifest: seq<ManifestEntry>): Actions {
    if |manifest| == 0 then map[]
    else Declare(DeclareAll(manifest[..|manifest| - 1]), manifest[|manifest| - 1])
  }

  /** One definition. An undeclared id gets an empty entry of unknown action, so that validation fails. */
  function Define(actions: Actions, c: CheckIn): Actions {
    if c.id in actions then actions[c.id := actions[c.id].(populated := true, checkIn := c)]
    else actions[c.id := ActionableCheck(NoCheck, TypeUnknown, false)]
  }

  function DefineAll(actions: Actions, defs: seq<CheckIn>): Actions {
    if |defs| == 0 then actions
    else Define(DefineAll(actions, defs[..|defs| - 1]), defs[|defs| - 1])
  }

  function NewPreparation(zoneId: string, version: int, manifest: seq<ManifestEntry>): Option<Prep> {
    if AllSupported(manifest) then Some(Prep(zoneId, version, DeclareAll(manifest))) else None
  }

  function AddDefinitions(p: Prep, block: seq<CheckIn>): Prep {
    p.(actions := DefineAll(p.actions, block))
  }

  predicate Validates(p: Prep, version: int) {
    && p.version == version
    && forall k <- p.actions :: p.actions[k].action != TypeUnknown && p.actions[k].populated
  }

  // ---- what declaring and defining leave behind ----

  predicate Declares(manifest: seq<ManifestEntry>, id: string) {
    exists i | 0 <= i < |manifest| :: manifest[i].id == id
  }

  function LastAction(manifest: seq<ManifestEntry>, id: string): Action
    requires Declares(manifest, id)
  {
    var n := |manifest| - 1;
    if manifest[n].id == id then manifest[n].action
    else
      assert forall i | 0 <= i < n :: manifest[..n][i] == manifest[i];
      LastAction(manifest[..n], id)
  }

  function LastDefinition(defs: seq<CheckIn>, id: string): (c: CheckIn)
    requires id in Ids(defs)
    ensures c in defs && c.id == id
  {
    var n := |defs| - 1;
    if defs[n].id == id then defs[n]
    else
      assert forall i | 0 <= i < n :: defs[..n][i] == defs[i];
      LastDefinition(defs[..n], id)
  }

  /** The entry of an id after a manifest: the last mention of that id decides. */
  lemma {:induction false} DeclareAllAt(manifest: seq<ManifestEntry>, id: string)
    ensures id in DeclareAll(manifest) <==> Declares(manifest, id)
    ensures Declares(manifest, id) ==>
              var e := DeclareAll(manifest)[id];
              && e.action == MapToActionType(LastAction(manifest, id))
              && e.populated == (LastAction(manifest, id) == Continue)
              && e.checkIn.id == id
  {
    if |manifest| > 0 {
      var n := |manifest| - 1;
      DeclareAllAt(manifest[..n], id);
      assert forall i | 0 <= i < n :: manifest[..n][i] == manifest[i];
      if manifest[n].id != id && Declares(manifest, id) {
        assert Declares(manifest[..n], id);
      }
    }
  }

  /** `i` is the last line for its id. */
  predicate IsLastLine(manifest: seq<ManifestEntry>, i: int) {
    0 <= i < |manifest| && forall j | i < j < |manifest| :: manifest[j].id != manifest[i].id
  }

  /** Until it is defined, an entry carries what the last line for its id says, and no details. */
  lemma {:induction false} DeclaredAsLastSaid(manifest: seq<ManifestEntry>, i: int)
    requires IsLastLine(manifest, i)
    ensures var m := manifest[i];
            && m.id in DeclareAll(manifest) && Declares(manifest, m.id) && LastAction(manifest, m.id) == m.action
            && DeclareAll(manifest)[m.id].checkIn == CheckIn(m.id, m.checkType, m.entityId, m.zoneId, "", Absent)
  {
    var n := |manifest| - 1;
    if i < n {
      assert forall j | 0 <= j < n :: manifest[..n][j] == manifest[j];
      DeclaredAsLastSaid(manifest[..n], i);
    }
  }

  /** The entry of an id after definitions: actions never change, a declared id is populated by its
      last definition, an undeclared id stays of unknown action however often it is sent. */
  lemma {:induction false} DefineAllAt(actions: Actions, defs: seq<CheckIn>, id: string)
    ensures id in DefineAll(actions, defs) <==> id in actions || id in Ids(defs)
    ensures id in actions ==>
              var e := DefineAll(actions, defs)[id];
              && e.action == actions[id].action
              && e.populated == (actions[id].populated || id in Ids(defs))
              && e.checkIn == (if id in Ids(defs) then LastDefinition(defs, id) else actions[id].checkIn)
    ensures id !in actions && id in Ids(defs) ==>
              var e := DefineAll(actions, defs)[id];
              e.action == TypeUnknown && (e.checkIn == NoCheck || e.checkIn.id == id)
  {
    if |defs| > 0 {
      var n := |defs| - 1;
      DefineAllAt(actions, defs[..n], id);
      IdsOfLast(defs);
    }
  }

  lemma IdsOfLast(defs: seq<CheckIn>)
    requires |defs| > 0
    ensures Ids(defs) == Ids(defs[..|defs| - 1]) + {defs[|defs| - 1].id}
  {
    var n := |defs| - 1;
    forall x | x in Ids(defs) ensures x in Ids(defs[..n]) + {defs[n].id} {
      var i :| 0 <= i < |defs| && defs[i].id == x;
      if i < n {
        assert defs[..n][i].id == x;
      }
    }
    forall x | x in Ids(defs[..n]) ensures x in Ids(defs) {
      var i :| 0 <= i < n && defs[..n][i].id == x;
      assert defs[i].id == x;
    }
  }

  lemma {:induction false} DefineAllConcat(actions: Actions, a: seq<CheckIn>, b: seq<CheckIn>)
    ensures DefineAll(actions, a + b) == DefineAll(DefineAll(actions, a), b)
  {
    if |b| == 0 {
      assert a + b == a;
    } else {
      var n := |b| - 1;
      DefineAllConcat(actions, a, b[..n]);
      assert (a + b)[..|a + b| - 1] == a + b[..n];
    }
  }

  // ---- validation ----

  /** The preparation after a manifest and a sequence of blocks. */
  function Received(p: Prep, blocks: seq<seq<CheckIn>>): Prep {
    if |blocks| == 0 then p
    else AddDefinitions(Received(p, blocks[..|blocks| - 1]), blocks[|blocks| - 1])
  }

  /** How the definitions were cut into blocks leaves no trace. */
  lemma {:induction false} ReceivedIsFlat(p: Prep, blocks: seq<seq<CheckIn>>)
    ensures Received(p, blocks) == AddDefinitions(p, Flatten(blocks))
  {
    if |blocks| > 0 {
      var n := |blocks| - 1;
      ReceivedIsFlat(p, blocks[..n]);
      DefineAllConcat(p.actions, Flatten(blocks[..n]), blocks[n]);
    }
  }

  /** Validation is exact. */
  lemma ValidationIsExact(zoneId: string, declared: int, manifest: seq<ManifestEntry>,
                          blocks: seq<seq<CheckIn>>, version: int)
    requires AllSupported(manifest)
    ensures Validates(Received(NewPreparation(zoneId, declared, manifest).value, blocks), version) <==>
              && version == declared
              && (forall id <- Ids(Flatten(blocks)) :: Declares(manifest, id))
              && (forall i | 0 <= i < |manifest| ::
                    LastAction(manifest, manifest[i].id) != Continue ==> manifest[i].id in Ids(Flatten(blocks)))
  {
    var defs := Flatten(blocks);
    var acts := DeclareAll(manifest);
    var p := Received(NewPreparation(zoneId, declared, manifest).value, blocks);
    ReceivedIsFlat(NewPreparation(zoneId, declared, manifest).value, blocks);
    forall id: string
      ensures id in acts <==> Declares(manifest, id)
      ensures Declares(manifest, id) ==>
                && acts[id].action == MapToActionType(LastAction(manifest, id)) != TypeUnknown
                && acts[id].populated == (LastAction(manifest, id) == Continue)
      ensures id in p.actions <==> id in acts || id in Ids(defs)
      ensures id in acts ==>
                && p.actions[id].action == acts[id].action
                && p.actions[id].populated == (acts[id].populated || id in Ids(defs))
      ensures id !in acts && id in Ids(defs) ==> p.actions[id].action == TypeUnknown
    {
      DeclareAllAt(manifest, id);
      DefineAllAt(acts, defs, id);
      if Declares(manifest, id) {
        LastActionSupported(manifest, id);
      }
    }
    forall i | 0 <= i < |manifest| ensures manifest[i].id in acts {
      assert Declares(manifest, manifest[i].id);
    }
  }

  lemma {:induction false} LastActionSupported(manifest: seq<ManifestEntry>, id: string)
    requires AllSupported(manifest) && Declares(manifest, id)
    ensures !LastAction(manifest, id).Unsupported?
  {
    var n := |manifest| - 1;
    if manifest[n].id != id {
      assert forall i | 0 <= i < n :: manifest[..n][i] == manifest[i];
      LastActionSupported(manifest[..n], id);
    }
  }

  /** A definition that no manifest entry announced spoils the preparation for good. */
  lemma UndeclaredPoisons(p: Prep, c: CheckIn, later: seq<seq<CheckIn>>, version: int)
    requires c.id !in p.actions
    ensures !Validates(Received(AddDefinitions(p, [c]), later), version)
  {
    DefineAllAt(p.actions, [c], c.id);
    assert [c][0].id == c.id;
    var acts := DefineAll(p.actions, [c]);
    ReceivedIsFlat(AddDefinitions(p, [c]), later);
    DefineAllAt(acts, Flatten(later), c.id);
  }

  /** The verdict depends on which ids were defined, not on order, repetition or block boundaries. */
  lemma VerdictIgnoresOrder(p: Prep, a: seq<seq<CheckIn>>, b: seq<seq<CheckIn>>, version: int)
    requires Ids(Flatten(a)) == Ids(Flatten(b))
    ensures Validates(Received(p, a), version) <==> Validates(Received(p, b), version)
  {
    ReceivedIsFlat(p, a);
    ReceivedIsFlat(p, b);
    if Validates(Received(p, a), version) {
      SameIdsSameVerdict(p, Flatten(a), Flatten(b), version);
    }
    if Validates(Received(p, b), version) {
      SameIdsSameVerdict(p, Flatten(b), Flatten(a), version);
    }
  }

  lemma SameIdsSameVerdict(p: Prep, a: seq<CheckIn>, b: seq<CheckIn>, version: int)
    requires Ids(a) == Ids(b)
    requires Validates(AddDefinitions(p, a), version)
    ensures Validates(AddDefinitions(p, b), version)
  {
    forall k | k in DefineAll(p.actions, b)
      ensures DefineAll(p.actions, b)[k].action != TypeUnknown && DefineAll(p.actions, b)[k].populated
    {
      DefineAllAt(p.actions, a, k);
      DefineAllAt(p.actions, b, k);
    }
  }

  // ---- the mutable preparation ----

  datatype ValidationError = WrongVersion | NotDeclared(id: string) | NotDefined(id: string)

  class ChecksPreparation {
    const zoneId: string
    const version: int
    var actions: Actions

    ghost function View(): Prep
      reads this
    {
      Prep(zoneId, version, actions)
    }

    constructor Empty(zoneId: string, version: int)
      ensures View() == Prep(zoneId, version, map[])
    {
      this.zoneId, this.version := zoneId, version;
      actions := map[];
    }

    static method NewChecksPreparation(zoneId: string, version: int, manifest: seq<ManifestEntry>)
      returns (cp: ChecksPreparation?)
      ensures cp == null <==> NewPreparation(zoneId, version, manifest) == None
      ensures cp != null ==> fresh(cp) && Some(cp.View()) == NewPreparation(zoneId, version, manifest)
    {
      var made := new ChecksPreparation.Empty(zoneId, version);
      for i := 0 to |manifest|
        invariant fresh(made) && made.zoneId == zoneId && made.version == version
        invariant made.actions == DeclareAll(manifest[..i])
        invariant AllSupported(manifest[..i])
      {
        var m := manifest[i];
        var actionType := MapToActionType(m.action);
        if actionType == TypeUnknown {
          assert !AllSupported(manifest);
          return null;
        }
        made.actions := made.actions[m.id :=
          ActionableCheck(CheckIn(m.id, m.checkType, m.entityId, m.zoneId, "", Absent), actionType, m.action == Continue)];
        assert manifest[..i + 1][..i] == manifest[..i];
      }
      assert manifest[..|manifest|] == manifest;
      cp := made;
    }

    method AddDefinitionBlock(block: seq<CheckIn>)
      modifies this
      ensures View() == AddDefinitions(old(View()), block)
    {
      for i := 0 to |block|
        invariant actions == DefineAll(old(actions), block[..i])
      {
        var ch := block[i];
        if ch.id !in actions {
          actions := actions[ch.id := ActionableCheck(NoCheck, TypeUnknown, false)];
        } else {
          actions := actions[ch.id := actions[ch.id].(populated := true, checkIn := ch)];
        }
        assert block[..i + 1][..i] == block[..i];
      }
      assert block[..|block|] == block;
    }

    /** The keys are visited in an arbitrary order, so which offending check is reported is not fixed. */
    method Validate(requested: int) returns (err: Option<ValidationError>)
      ensures err.None? <==> Validates(View(), requested)
      ensures err.Some? ==>
                match err.value
                case WrongVersion => version != requested
                case NotDeclared(id) => version == requested && exists k <- actions :: actions[k].action == TypeUnknown && actions[k].checkIn.id == id
                case NotDefined(id) => version == requested && id in actions && actions[id].action != TypeUnknown && !actions[id].populated
    {
      if version != requested {
        return Some(WrongVersion);
      }
      var todo := actions.Keys;
      while todo != {}
        invariant todo <= actions.Keys
        invariant forall k <- actions.Keys - todo :: actions[k].action != TypeUnknown && actions[k].populated
      {
        var k :| k in todo;
        if actions[k].action == TypeUnknown {
          return Some(NotDeclared(actions[k].checkIn.id));
        }
        if !actions[k].populated {
          return Some(NotDefined(k));
        }
        todo := todo - {k};
      }
      return None;
    }

    /** Every entry once, in an arbitrary order: `keys` is the order taken. */
    method GetActionableChecks() returns (acs: seq<ActionableCheck>, ghost keys: seq<string>)
      ensures |acs| == |actions|
      ensures (set ac <- acs) == actions.Values
      ensures |keys| == |acs|
      ensures forall i, j | 0 <= i < j < |keys| :: keys[i] != keys[j]
      ensures forall i | 0 <= i < |keys| :: keys[i] in actions && acs[i] == actions[keys[i]]
      ensures forall k <- actions :: k in keys
    {
      acs, keys := [], [];
      var todo := actions.Keys;
      while todo != {}
        invariant todo <= actions.Keys && |acs| == |keys| == |actions| - |todo|
        invariant forall i, j | 0 <= i < j < |keys| :: keys[i] != keys[j]
        invariant forall i | 0 <= i < |keys| :: keys[i] in actions.Keys - todo && acs[i] == actions[keys[i]]
        invariant forall k <- actions.Keys - todo :: k in keys
      {
        var k :| k in todo;
        acs, keys := acs + [actions[k]], keys + [k];
        todo := todo - {k};
      }
      forall k | k in actions ensures actions[k] in acs {
        assert k in keys;
        var i :| 0 <= i < |keys| && keys[i] == k;
        assert acs[i] == actions[k];
      }
    }
  }
}
