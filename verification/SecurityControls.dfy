/**
 The control registry: whether a security control is in force for a tenant, decided along its chain of
 parents.
 */
module SecurityControls {
  import opened Options

  type TenantId = int

  datatype Control = Control(active: bool, configurable: bool, defaultEnabled: bool, parent: Option<string>)
  datatype Override = Inherit | ForceEnabled | ForceDisabled

  /** Definitions, platform settings and tenant overrides. */
  datatype Registry = Registry(
    definitions: map<string, Control>, platform: map<string, bool>, overrides: map<(TenantId, string), Override>)

  /** The walk ends with a verdict, or for ever: a cycle of parents is a RecursionError. */
  datatype Verdict = On | Off | Endless

  predicate Defined(s: Registry, key: string) {
    key in s.definitions && s.definitions[key].active
  }

  function OverrideOf(s: Registry, t: TenantId, key: string): Override {
    if (t, key) in s.overrides then s.overrides[(t, key)] else Inherit
  }

  /** The control by itself: fixed controls are on, an override beats the platform, the platform the default. */
  predicate LocallyOn(s: Registry, t: TenantId, key: string)
    requires Defined(s, key)
  {
    if !s.definitions[key].configurable || OverrideOf(s, t, key).ForceEnabled? then true
    else if OverrideOf(s, t, key).ForceDisabled? then false
    else if key in s.platform then s.platform[key]
    else s.definitions[key].defaultEnabled
  }

  /**
   What decides a control by itself: one nobody may configure is on; an override of the tenant has the last word;
   without one the platform setting holds, and without that the default.
   */
  lemma OnByItselfExactlyWhen(s: Registry, t: TenantId, key: string)
    requires Defined(s, key)
    ensures !s.definitions[key].configurable ==> LocallyOn(s, t, key)
    ensures s.definitions[key].configurable && (t, key) in s.overrides && s.overrides[(t, key)] != Inherit ==>
              (LocallyOn(s, t, key) <==> s.overrides[(t, key)] == ForceEnabled)
    ensures s.definitions[key].configurable && ((t, key) !in s.overrides || s.overrides[(t, key)] == Inherit) ==>
              (LocallyOn(s, t, key) <==>
                if key in s.platform then s.platform[key] else s.definitions[key].defaultEnabled)
  {}

  /** `_effective_control`, with the controls already visited. */
  function Walk(s: Registry, t: TenantId, key: string, seen: set<string>): Verdict
    decreases |s.definitions.Keys - seen|
  {
    if !Defined(s, key) then Off
    else if key in seen then Endless
    else if !LocallyOn(s, t, key) then Off
    else
      match s.definitions[key].parent
      case None => On
      case Some(parent) =>
        assert s.definitions.Keys - (seen + {key}) < s.definitions.Keys - seen by {
          assert key in s.definitions.Keys - seen;
        }
        Smaller(s.definitions.Keys - (seen + {key}), s.definitions.Keys - seen);
        Walk(s, t, parent, seen + {key})
  }

  lemma Smaller(a: set<string>, b: set<string>)
    requires a < b
    ensures |a| < |b|
  {
    assert b == a + (b - a);
    assert b - a == {} ==> b <= a;
  }

  function EffectiveControl(s: Registry, t: TenantId, key: string): Verdict {
    Walk(s, t, key, {})
  }

  // ---------------------------------------------------------------------------------------------
  // Chains of parents
  // ---------------------------------------------------------------------------------------------

  /** chain leads from its first control to a root, each next one the parent of the one before. */
  ghost predicate IsChain(s: Registry, chain: seq<string>) {
    && chain != []
    && (forall i :: 0 <= i < |chain| ==> Defined(s, chain[i]))
    && (forall i :: 0 <= i < |chain| - 1 ==> s.definitions[chain[i]].parent == Some(chain[i + 1]))
    && s.definitions[chain[|chain| - 1]].parent == None
  }

  ghost predicate AllOn(s: Registry, t: TenantId, chain: seq<string>)
    requires IsChain(s, chain)
  {
    forall i :: 0 <= i < |chain| ==> LocallyOn(s, t, chain[i])
  }

  lemma ChainTail(s: Registry, chain: seq<string>, i: nat)
    requires IsChain(s, chain) && i < |chain|
    ensures IsChain(s, chain[i..])
  {
    var tail := chain[i..];
    assert tail[|tail| - 1] == chain[|chain| - 1];
    forall j | 0 <= j < |tail| - 1 ensures s.definitions[tail[j]].parent == Some(tail[j + 1]) {
      assert tail[j] == chain[i + j] && tail[j + 1] == chain[i + j + 1];
    }
  }

  lemma RootIsAlone(s: Registry, chain: seq<string>)
    requires IsChain(s, chain)
    ensures |chain| == 1 <==> s.definitions[chain[0]].parent == None
  {
    if |chain| > 1 {
      assert s.definitions[chain[0]].parent == Some(chain[1]);
    }
  }

  /** Each control has at most one chain to a root. */
  lemma {:induction false} ChainIsUnique(s: Registry, a: seq<string>, b: seq<string>)
    requires IsChain(s, a) && IsChain(s, b) && a[0] == b[0]
    ensures a == b
  {
    RootIsAlone(s, a);
    RootIsAlone(s, b);
    if |a| > 1 {
      ChainTail(s, a, 1);
      ChainTail(s, b, 1);
      assert Some(a[1]) == s.definitions[a[0]].parent == Some(b[1]);
      ChainIsUnique(s, a[1..], b[1..]);
      assert a == [a[0]] + a[1..] && b == [b[0]] + b[1..];
    }
  }

  lemma ChainHasNoRepeats(s: Registry, chain: seq<string>, i: nat, j: nat)
    requires IsChain(s, chain) && i < j < |chain|
    ensures chain[i] != chain[j]
  {
    ChainTail(s, chain, i);
    ChainTail(s, chain, j);
    assert |chain[i..]| != |chain[j..]|;
    if chain[i..][0] == chain[j..][0] {
      ChainIsUnique(s, chain[i..], chain[j..]);
    }
  }

  /** A walk that ends with On has followed a chain on which every control is on. */
  lemma {:induction false} OnHasChain(s: Registry, t: TenantId, key: string, seen: set<string>)
    returns (chain: seq<string>)
    requires Walk(s, t, key, seen).On?
    ensures IsChain(s, chain) && chain[0] == key && AllOn(s, t, chain)
    decreases |s.definitions.Keys - seen|
  {
    match s.definitions[key].parent
    case None => chain := [key];
    case Some(parent) =>
      Smaller(s.definitions.Keys - (seen + {key}), s.definitions.Keys - seen);
      var rest := OnHasChain(s, t, parent, seen + {key});
      chain := [key] + rest;
      assert chain[|chain| - 1] == rest[|rest| - 1];
  }

  /** On a chain the walk answers whether every control of it is on. */
  lemma {:induction false} WalkOfChain(s: Registry, t: TenantId, chain: seq<string>, seen: set<string>)
    requires IsChain(s, chain) && forall i :: 0 <= i < |chain| ==> chain[i] !in seen
    ensures Walk(s, t, chain[0], seen) == if AllOn(s, t, chain) then On else Off
    decreases |chain|
  {
    if |chain| > 1 && LocallyOn(s, t, chain[0]) {
      ChainTail(s, chain, 1);
      var rest := chain[1..];
      assert s.definitions[chain[0]].parent == Some(rest[0]);
      forall i | 0 <= i < |rest| ensures rest[i] !in seen + {chain[0]} {
        ChainHasNoRepeats(s, chain, 0, i + 1);
      }
      WalkOfChain(s, t, rest, seen + {chain[0]});
      assert AllOn(s, t, chain) <==> AllOn(s, t, rest) by {
        assert forall i :: 1 <= i < |chain| ==> chain[i] == rest[i - 1];
      }
    }
  }

  /** A control is in force exactly when it has a chain to a root on which every control is on. */
  lemma InForceExactlyWhen(s: Registry, t: TenantId, key: string)
    ensures EffectiveControl(s, t, key).On? <==>
            exists chain :: IsChain(s, chain) && chain[0] == key && AllOn(s, t, chain)
  {
    if EffectiveControl(s, t, key).On? {
      var chain := OnHasChain(s, t, key, {});
    }
    if chain :| IsChain(s, chain) && chain[0] == key && AllOn(s, t, chain) {
      WalkOfChain(s, t, chain, {});
    }
  }

  /** Below a root the walk always ends, and any control of the chain that is off decides it. */
  lemma DisabledAncestorWins(s: Registry, t: TenantId, chain: seq<string>)
    requires IsChain(s, chain)
    ensures EffectiveControl(s, t, chain[0]) == if AllOn(s, t, chain) then On else Off
  {
    WalkOfChain(s, t, chain, {});
  }

  // ---------------------------------------------------------------------------------------------
  // Cycles of parents
  // ---------------------------------------------------------------------------------------------

  /** The controls of steps are on and each next one is the parent of the one before; the last need only be defined. */
  ghost predicate IsPath(s: Registry, t: TenantId, steps: seq<string>) {
    && (forall i :: 0 <= i < |steps| ==> Defined(s, steps[i]))
    && (forall i :: 0 <= i < |steps| - 1 ==>
          LocallyOn(s, t, steps[i]) && s.definitions[steps[i]].parent == Some(steps[i + 1]))
  }

  /** steps leads from key round to a control it has passed before. */
  ghost predicate LeadsRound(s: Registry, t: TenantId, key: string, steps: seq<string>) {
    && |steps| > 1 && steps[0] == key && IsPath(s, t, steps)
    && steps[|steps| - 1] in steps[..|steps| - 1]
  }

  function Passed(steps: seq<string>): set<string> {
    set key | key in steps
  }

  lemma {:induction false} RoundIsEndless(s: Registry, t: TenantId, steps: seq<string>, i: nat)
    requires i < |steps| && LeadsRound(s, t, steps[0], steps)
    ensures Walk(s, t, steps[i], Passed(steps[..i])).Endless?
    decreases |steps| - i
  {
    if steps[i] !in steps[..i] {
      assert i < |steps| - 1;
      assert Passed(steps[..i]) + {steps[i]} == Passed(steps[..i + 1]);
      RoundIsEndless(s, t, steps, i + 1);
    }
  }

  lemma {:induction false} EndlessLeadsRound(s: Registry, t: TenantId, path: seq<string>, key: string)
    returns (steps: seq<string>)
    requires Walk(s, t, key, Passed(path)).Endless? && IsPath(s, t, path + [key])
    ensures steps != [] && steps[0] == (path + [key])[0] && LeadsRound(s, t, steps[0], steps)
    decreases |s.definitions.Keys - Passed(path)|
  {
    steps := path + [key];
    if key !in path {
      var parent := s.definitions[key].parent.value;
      assert Passed(path) + {key} == Passed(steps);
      Smaller(s.definitions.Keys - Passed(steps), s.definitions.Keys - Passed(path));
      EndlessIsDefined(s, t, parent, Passed(steps));
      steps := EndlessLeadsRound(s, t, steps, parent);
    }
  }

  lemma EndlessIsDefined(s: Registry, t: TenantId, key: string, seen: set<string>)
    requires Walk(s, t, key, seen).Endless?
    ensures Defined(s, key)
  {}

  /** The walk recurses without end exactly when controls that are on lead round to one of themselves. */
  lemma EndlessExactlyWhen(s: Registry, t: TenantId, key: string)
    ensures EffectiveControl(s, t, key).Endless? <==> exists steps :: LeadsRound(s, t, key, steps)
  {
    assert Passed([]) == {};
    if EffectiveControl(s, t, key).Endless? {
      EndlessIsDefined(s, t, key, {});
      assert [] + [key] == [key];
      var steps := EndlessLeadsRound(s, t, [], key);
    }
    if steps :| LeadsRound(s, t, key, steps) {
      RoundIsEndless(s, t, steps, 0);
      assert steps[..0] == [];
    }
  }

  /** An input: a control that is on and its own parent. */
  lemma SelfParentIsEndless(t: TenantId, key: string) returns (s: Registry)
    ensures Defined(s, key) && LocallyOn(s, t, key) && EffectiveControl(s, t, key).Endless?
  {
    s := Registry(map[key := Control(true, false, true, Some(key))], map[], map[]);
    var steps := [key, key];
    assert steps[..1] == [key];
    assert LeadsRound(s, t, key, steps);
    EndlessExactlyWhen(s, t, key);
  }
}
