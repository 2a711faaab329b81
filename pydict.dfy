/**
 * Python dictionaries as the scenario and configuration code uses them: a map
 * together with the insertion order of its keys, and the override loop that
 * stores one dictionary's items into another.
 */
module PyDict {

  /** A configuration value: an integer, a float or a string. */
  datatype Value = IntV(i: int) | RealV(r: real) | StrV(s: string)

  /** A Python dictionary: its keys in insertion order and the value stored under each. */
  datatype Dict = Dict(keys: seq<string>, vals: map<string, Value>)

  predicate DistinctNames(ks: seq<string>) {
    forall a, b :: 0 <= a < b < |ks| ==> ks[a] != ks[b]
  }

  /** The key list has no repeats and lists exactly the keys of the map. */
  predicate WellFormed(d: Dict) {
    && DistinctNames(d.keys)
    && (forall k :: k in d.vals ==> k in d.keys)
    && (forall j :: 0 <= j < |d.keys| ==> d.keys[j] in d.vals)
  }

  /** `d[k] = v`: an existing key keeps its position, a new key goes last. */
  function Put(d: Dict, k: string, v: Value): (r: Dict)
    requires WellFormed(d)
    ensures WellFormed(r)
  {
    if k in d.vals then Dict(d.keys, d.vals[k := v]) else Dict(d.keys + [k], d.vals[k := v])
  }

  /** The keys of ks that are not in `present`, in order: the columns an override appends. */
  function Added<K>(ks: seq<K>, present: set<K>): seq<K> {
    if ks == [] then []
    else Added(ks[..|ks| - 1], present) + (if ks[|ks| - 1] in present then [] else [ks[|ks| - 1]])
  }

  /** The override loop: every supplied parameter is stored in the scenario, new keys last. */
  method ApplyOverrides(defaults: Dict, params: Dict) returns (scenario: Dict)
    requires WellFormed(defaults) && WellFormed(params)
    ensures WellFormed(scenario)
    ensures scenario.keys == defaults.keys + Added(params.keys, defaults.vals.Keys)
    ensures scenario.vals == defaults.vals + params.vals
  {
    scenario := defaults;
    for p := 0 to |params.keys|
      invariant OverriddenThrough(scenario, defaults, params, p)
    {
      OverrideStep(scenario, defaults, params, p);
      scenario := Put(scenario, params.keys[p], params.vals[params.keys[p]]);
    }
    OverridesDone(scenario, defaults, params);
  }

  /** Once every supplied parameter is stored, the scenario holds all of them. */
  lemma OverridesDone(scenario: Dict, defaults: Dict, params: Dict)
    requires WellFormed(params) && OverriddenThrough(scenario, defaults, params, |params.keys|)
    ensures WellFormed(scenario)
    ensures scenario.keys == defaults.keys + Added(params.keys, defaults.vals.Keys)
    ensures scenario.vals == defaults.vals + params.vals
  {
    assert params.keys[..|params.keys|] == params.keys;
    assert Restrict(params.vals, params.keys) == params.vals;
  }

  /** The scenario after the first p supplied parameters have been stored. */
  ghost predicate OverriddenThrough(scenario: Dict, defaults: Dict, params: Dict, p: nat)
    requires WellFormed(params) && p <= |params.keys|
  {
    && WellFormed(scenario)
    && scenario.keys == defaults.keys + Added(params.keys[..p], defaults.vals.Keys)
    && scenario.vals == defaults.vals + Restrict(params.vals, params.keys[..p])
  }

  /** The items of m whose key is listed in ks. */
  function Restrict<K, V>(m: map<K, V>, ks: seq<K>): map<K, V> {
    map k | k in m && k in ks :: m[k]
  }

  lemma OverrideStep(scenario: Dict, defaults: Dict, params: Dict, p: nat)
    requires WellFormed(defaults) && WellFormed(params) && p < |params.keys|
    requires OverriddenThrough(scenario, defaults, params, p)
    ensures OverriddenThrough(Put(scenario, params.keys[p], params.vals[params.keys[p]]), defaults, params, p + 1)
  {
    var key := params.keys[p];
    var before, after := params.keys[..p], params.keys[..p + 1];
    assert after == before + [key];
    assert key !in before by {
      forall a | 0 <= a < p ensures params.keys[a] != key {
      }
    }
    assert key in scenario.vals <==> key in defaults.vals.Keys;
    if key in scenario.vals {
      OverrideKnownKey(scenario.keys, defaults.keys, before, key, defaults.vals.Keys);
    } else {
      OverrideNewKey(scenario.keys, defaults.keys, before, key, defaults.vals.Keys);
    }
    OverrideStepVals(scenario.vals, defaults.vals, params.vals, before, key);
    assert Put(scenario, key, params.vals[key]).vals == scenario.vals[key := params.vals[key]];
  }

  /** Storing a key the defaults already have leaves the key order as it was. */
  lemma OverrideKnownKey<K>(keys: seq<K>, dkeys: seq<K>, before: seq<K>, key: K, present: set<K>)
    requires keys == dkeys + Added(before, present) && key in present
    ensures keys == dkeys + Added(before + [key], present)
  {
    AddedSnoc(before, key, present);
    assert Added(before, present) + [] == Added(before, present);
  }

  /** Storing a new key appends it to the key order. */
  lemma OverrideNewKey<K>(keys: seq<K>, dkeys: seq<K>, before: seq<K>, key: K, present: set<K>)
    requires keys == dkeys + Added(before, present) && key !in present
    ensures keys + [key] == dkeys + Added(before + [key], present)
  {
    AddedSnoc(before, key, present);
    assert dkeys + (Added(before, present) + [key]) == (dkeys + Added(before, present)) + [key];
  }

  lemma OverrideStepVals<K, V>(vals: map<K, V>, defaults: map<K, V>, pv: map<K, V>, before: seq<K>, key: K)
    requires vals == defaults + Restrict(pv, before) && key in pv
    ensures vals[key := pv[key]] == defaults + Restrict(pv, before + [key])
  {
    assert Restrict(pv, before + [key]) == Restrict(pv, before)[key := pv[key]];
  }

  lemma AddedSnoc<K>(xs: seq<K>, x: K, present: set<K>)
    ensures Added(xs + [x], present) == Added(xs, present) + (if x in present then [] else [x])
  {
    assert (xs + [x])[..|xs|] == xs;
  }

  /** Storing each of two keys' current values changes nothing. */
  lemma UpdateSame<K, V>(m: map<K, V>, a: K, b: K)
    requires a in m && b in m
    ensures m[a := m[a]][b := m[b]] == m
  {
  }

  /** Storing two keys again overwrites what was stored under them before. */
  lemma UpdateTwice<K, V>(m: map<K, V>, a: K, b: K, x1: V, y1: V, x2: V, y2: V)
    requires a != b
    ensures m[a := x1][b := y1][a := x2][b := y2] == m[a := x2][b := y2]
  {
  }
}
