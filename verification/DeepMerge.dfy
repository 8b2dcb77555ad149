/** The configuration merge of daemon/src/core/config.ts. */
module DeepMerge {
  import opened Wrappers

  /** JavaScript values as YAML and the defaults produce them. Property order is not
      kept; a property may hold undefined. */
  datatype Value =
    | Undefined
    | Null
    | Bool(b: bool)
    | Number(n: real)
    | Text(s: string)
    | Array(items: seq<Value>)
    | Object(fields: map<string, Value>)

  function Get(fields: map<string, Value>, key: string): Value {
    if key in fields then fields[key] else Undefined
  }

  /** The properties an object defines. */
  function Defined(fields: map<string, Value>): set<string> {
    set key | key in fields && !fields[key].Undefined?
  }

  /** The value of one property after the merge: objects merge, undefined leaves the
      target, anything else replaces it. */
  function MergeValue(target: Value, source: Value): Value
    decreases source
  {
    if source.Object? && target.Object? then
      Object(map key | key in target.fields.Keys + Defined(source.fields) ::
        if key in source.fields then MergeValue(Get(target.fields, key), source.fields[key]) else target.fields[key])
    else if source.Undefined? then target
    else source
  }

  /** A copy of the target, changed key by key. */
  method Merge(target: map<string, Value>, source: map<string, Value>) returns (result: map<string, Value>)
    ensures Object(result) == MergeValue(Object(target), Object(source))
    decreases Object(source)
  {
    result := target;
    var keys := source.Keys;
    while keys != {}
      invariant keys <= source.Keys
      invariant result.Keys == target.Keys + (Defined(source) - keys)
      invariant forall key :: key in result ==>
                  result[key] == (if key in source && key !in keys then MergeValue(Get(target, key), source[key])
                                  else target[key])
      decreases keys
    {
      var key :| key in keys;
      var srcVal, tgtVal := source[key], Get(target, key);
      assert srcVal == Object(source).fields[key];
      if srcVal.Object? && tgtVal.Object? {
        var merged := Merge(tgtVal.fields, srcVal.fields);
        result := result[key := Object(merged)];
      } else if !srcVal.Undefined? {
        result := result[key := srcVal];
      }
      keys := keys - {key};
    }
    assert result == MergeValue(Object(target), Object(source)).fields;
  }

  // ---- Laws ----

  lemma {:induction false} MergeSelf(v: Value)
    ensures MergeValue(v, v) == v
    decreases v
  {
    if v.Object? {
      forall key | key in v.fields ensures MergeValue(v.fields[key], v.fields[key]) == v.fields[key] {
        MergeSelf(v.fields[key]);
      }
      assert MergeValue(v, v).fields == v.fields;
    }
  }

  /** Merging the same source twice is merging it once, at every depth. */
  lemma {:induction false} MergeAbsorbs(target: Value, source: Value)
    ensures MergeValue(MergeValue(target, source), source) == MergeValue(target, source)
    decreases source
  {
    if source.Object? && target.Object? {
      var once := MergeValue(target, source);
      forall key | key in source.fields
        ensures MergeValue(Get(once.fields, key), source.fields[key]) == Get(once.fields, key)
      {
        MergeAbsorbs(Get(target.fields, key), source.fields[key]);
      }
      assert MergeValue(once, source).fields == once.fields;
    } else {
      MergeSelf(source);
    }
  }

  function Lookup(v: Value, path: seq<string>): Value
    decreases path
  {
    if path == [] then v
    else if v.Object? then Lookup(Get(v.fields, path[0]), path[1..])
    else Undefined
  }

  /** On the way to `path` there is a defined value that is no object. */
  predicate CutOff(v: Value, path: seq<string>)
    decreases path
  {
    path != [] && !v.Undefined? && (v.Object? ==> CutOff(Get(v.fields, path[0]), path[1..]))
  }

  lemma {:induction false} LookupUndefined(path: seq<string>)
    ensures Lookup(Undefined, path) == Undefined
  {
  }

  /** What the merge holds at any path: nothing where the source put a plain value on
      the way, and otherwise the merge of what the two sides hold there. */
  lemma {:induction false} LookupMerge(target: Value, source: Value, path: seq<string>)
    ensures Lookup(MergeValue(target, source), path) ==
              if CutOff(source, path) then Undefined else MergeValue(Lookup(target, path), Lookup(source, path))
    decreases path
  {
    if path != [] && source.Object? {
      if target.Object? {
        LookupMerge(Get(target.fields, path[0]), Get(source.fields, path[0]), path[1..]);
      } else {
        LookupMerge(Undefined, Get(source.fields, path[0]), path[1..]);
        LookupUndefined(path[1..]);
      }
    }
  }

  // ---- The layers of the configuration ----

  /** Built-in defaults, then the defaults file if there is one, then the parsed
      configuration. */
  method MergeWithDefaults(defaults: map<string, Value>, file: Option<map<string, Value>>, parsed: map<string, Value>)
    returns (merged: map<string, Value>)
    ensures Object(merged) == Layered(defaults, file, parsed)
  {
    var base := defaults;
    if file.Some? {
      base := Merge(defaults, file.value);
    }
    merged := Merge(base, parsed);
  }

  function Layered(defaults: map<string, Value>, file: Option<map<string, Value>>, parsed: map<string, Value>): Value {
    MergeValue(if file.Some? then MergeValue(Object(defaults), Object(file.value)) else Object(defaults),
               Object(parsed))
  }

  predicate Sets(layer: Value, path: seq<string>) {
    !Lookup(layer, path).Undefined? && !Lookup(layer, path).Object?
  }

  predicate Silent(layer: Value, path: seq<string>) {
    Lookup(layer, path).Undefined? && !CutOff(layer, path)
  }

  lemma {:induction false} CutOffHidesAll(v: Value, path: seq<string>)
    requires CutOff(v, path)
    ensures Lookup(v, path) == Undefined
    decreases path
  {
    if v.Object? {
      CutOffHidesAll(Get(v.fields, path[0]), path[1..]);
    }
  }

  lemma LayerWins(below: Value, layer: Value, path: seq<string>)
    ensures Sets(layer, path) ==> Lookup(MergeValue(below, layer), path) == Lookup(layer, path)
    ensures Silent(layer, path) ==> Lookup(MergeValue(below, layer), path) == Lookup(below, path)
  {
    LookupMerge(below, layer, path);
    if CutOff(layer, path) {
      CutOffHidesAll(layer, path);
    }
  }

  /** A setting comes from the last layer that has it, at any depth. */
  lemma LastLayerWins(defaults: map<string, Value>, file: Option<map<string, Value>>, parsed: map<string, Value>,
                      path: seq<string>)
    ensures var merged := Lookup(Layered(defaults, file, parsed), path);
            && (Sets(Object(parsed), path) ==> merged == Lookup(Object(parsed), path))
            && (Silent(Object(parsed), path) ==>
                  && (file.Some? && Sets(Object(file.value), path) ==> merged == Lookup(Object(file.value), path))
                  && (file.Some? && Silent(Object(file.value), path) ==> merged == Lookup(Object(defaults), path))
                  && (file.None? ==> merged == Lookup(Object(defaults), path)))
  {
    if file.Some? {
      LayerWins(Object(defaults), Object(file.value), path);
      LayerWins(MergeValue(Object(defaults), Object(file.value)), Object(parsed), path);
    } else {
      LayerWins(Object(defaults), Object(parsed), path);
    }
  }
}
