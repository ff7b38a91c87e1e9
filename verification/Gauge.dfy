/** The gauge of scheduled checks: one value per check type. */
module Gauges {
  import opened Protocol

  type Gauge = map<string, int>

  function At(g: Gauge, checkType: string): int { if checkType in g then g[checkType] else 0 }

  function Add(g: Gauge, checkType: string, d: int): Gauge { g[checkType := At(g, checkType) + d] }

  ghost function Sum(g: Gauge): int {
    if g == map[] then 0
    else
      var t :| t in g;
      g[t] + Sum(g - {t})
  }

  lemma {:induction false} SumPicks(g: Gauge, t: string)
    requires t in g
    ensures Sum(g) == g[t] + Sum(g - {t})
    decreases |g|
  {
    var u :| u in g && Sum(g) == g[u] + Sum(g - {u});
    if u != t {
      SumPicks(g - {u}, t);
      SumPicks(g - {t}, u);
      assert g - {u} - {t} == g - {t} - {u};
    }
  }

  lemma SumAdd(g: Gauge, t: string, d: int)
    ensures Sum(Add(g, t, d)) == Sum(g) + d
  {
    var g' := Add(g, t, d);
    SumPicks(g', t);
    if t in g {
      SumPicks(g, t);
      assert g' - {t} == g - {t};
    } else {
      assert g' - {t} == g;
    }
  }

  /** Either one check type, or all of them together. */
  type Kind = Option<string>

  predicate IsKind(kind: Kind, checkType: string) { kind.None? || kind.value == checkType }

  ghost function Level(g: Gauge, kind: Kind): int {
    if kind.None? then Sum(g) else At(g, kind.value)
  }

  lemma LevelAdd(g: Gauge, checkType: string, d: int, kind: Kind)
    ensures Level(Add(g, checkType, d), kind) == Level(g, kind) + if IsKind(kind, checkType) then d else 0
  {
    SumAdd(g, checkType, d);
  }
}
