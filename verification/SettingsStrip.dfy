/**
 * Sparse settings: only what differs from the defaults is written
 * (apps/server/src/serverSettings.ts:204-239, 435-436). Reading lays the file over the defaults.
 */
module SettingsStrip {
  import opened Prelude

  datatype Json =
    | Null
    | Bool(flag: bool)
    | Number(number: int)
    | Text(text: string)
    | List(items: seq<Json>)
    | Object(fields: map<string, Json>)

  // Keys whose values are compared as a whole.
  predicate Atomic(key: string) {
    key == "textGenerationModelSelection"
  }

  function Get(fields: map<string, Json>, key: string): Option<Json> {
    if key in fields then Some(fields[key]) else None
  }

  /** What is kept under one key. */
  function StripField(value: Json, base: Option<Json>, key: string): Option<Json>
    decreases value, 2
  {
    if Atomic(key) then (if Some(value) == base then None else Some(value)) else Strip(value, base)
  }

  /** The fields that are kept. */
  function StripFields(fields: map<string, Json>, base: map<string, Json>): map<string, Json>
    decreases Object(fields), 0
  {
    map key | key in fields && StripField(fields[key], Get(base, key), key).Some?
      :: StripField(fields[key], Get(base, key), key).value
  }

  function Strip(current: Json, defaults: Option<Json>): Option<Json>
    decreases current, 1
  {
    if current.Object? && defaults.Some? && defaults.value.Object? then
      var next := StripFields(current.fields, defaults.value.fields);
      if next == map[] then None else Some(Object(next))
    else if Some(current) == defaults then None
    else Some(current)
  }

  lemma StripFieldsAdd(fields: map<string, Json>, base: map<string, Json>, next: map<string, Json>, keys: set<string>, key: string)
    requires key in keys && keys <= fields.Keys
    requires forall k :: k in next <==> k in fields && k !in keys && StripField(fields[k], Get(base, k), k).Some?
    requires forall k :: k in next ==> StripField(fields[k], Get(base, k), k) == Some(next[k])
    ensures var kept := StripField(fields[key], Get(base, key), key);
      var more := if kept.Some? then next[key := kept.value] else next;
      && (forall k :: k in more <==> k in fields && k !in keys - {key} && StripField(fields[k], Get(base, k), k).Some?)
      && (forall k :: k in more ==> StripField(fields[k], Get(base, k), k) == Some(more[k]))
  {
  }

  method StripDefaults(current: Json, defaults: Option<Json>) returns (r: Option<Json>)
    ensures r == Strip(current, defaults)
    decreases current
  {
    if current.List? || (defaults.Some? && defaults.value.List?) {
      return if Some(current) == defaults then None else Some(current);
    }
    if current.Object? && defaults.Some? && defaults.value.Object? {
      var fields, base := current.fields, defaults.value.fields;
      var next: map<string, Json> := map[];
      var keys := fields.Keys;
      while keys != {}
        invariant keys <= fields.Keys
        invariant forall k :: k in next <==> k in fields && k !in keys && StripField(fields[k], Get(base, k), k).Some?
        invariant forall k :: k in next ==> StripField(fields[k], Get(base, k), k) == Some(next[k])
        decreases keys
      {
        var key :| key in keys;
        StripFieldsAdd(fields, base, next, keys, key);
        if Atomic(key) {
          if Some(fields[key]) != Get(base, key) {
            next := next[key := fields[key]];
          }
        } else {
          var stripped := StripDefaults(fields[key], Get(base, key));
          if stripped.Some? {
            next := next[key := stripped.value];
          }
        }
        keys := keys - {key};
      }
      assert next == StripFields(fields, base);
      return if next != map[] then Some(Object(next)) else None;
    }
    return if Some(current) == defaults then None else Some(current);
  }

  // ----- reading -----

  /** What a key with a default reads as. */
  function LaidField(base: Json, kept: Option<Json>, key: string): Json
    decreases base, 2
  {
    if Atomic(key) && kept.Some? then kept.value else Overlay(base, kept)
  }

  function OverlayFields(base: map<string, Json>, kept: map<string, Json>): map<string, Json>
    decreases Object(base), 0
  {
    map key | key in base.Keys + kept.Keys
      :: if key in base then LaidField(base[key], Get(kept, key), key) else kept[key]
  }

  /** The kept settings laid over the defaults. */
  function Overlay(defaults: Json, kept: Option<Json>): Json
    decreases defaults, 1
  {
    match kept
    case None => defaults
    case Some(k) =>
      if defaults.Object? && k.Object? then Object(OverlayFields(defaults.fields, k.fields)) else k
  }

  // ----- what survives -----

  /** Every default key is there, at each level that is compared field by field. */
  ghost predicate HasDefaultKeys(current: Json, defaults: Json) {
    current.Object? && defaults.Object? ==>
      forall key :: key in defaults.fields ==>
        key in current.fields && (Atomic(key) || HasDefaultKeys(current.fields[key], defaults.fields[key]))
  }

  /** What any key reads as. */
  function OverlayField(base: Option<Json>, kept: Option<Json>, key: string): Option<Json> {
    match base
    case None => kept
    case Some(d) => Some(LaidField(d, kept, key))
  }

  /** What reading gives back for one key of the current settings. */
  function FieldReadBack(current: Option<Json>, base: Option<Json>, key: string): Option<Json> {
    OverlayField(base, if current.Some? then StripField(current.value, base, key) else None, key)
  }

  lemma {:induction false} FieldRestoredIff(current: Json, base: Option<Json>, key: string)
    ensures FieldReadBack(Some(current), base, key) == Some(current)
       <==> (base.Some? && !Atomic(key) ==> HasDefaultKeys(current, base.value))
    decreases current, 1
  {
    if Atomic(key) {
      if Some(current) == base {
        assert LaidField(current, None, key) == Overlay(current, None) == current;
      }
    } else {
      match base
      case None => assert Strip(current, None) == Some(current);
      case Some(d) => RestoredIff(current, d);
    }
  }

  lemma ObjectReadBack(fields: map<string, Json>, base: map<string, Json>, key: string)
    ensures Get(OverlayFields(base, StripFields(fields, base)), key) == FieldReadBack(Get(fields, key), Get(base, key), key)
  {
    var kept := StripFields(fields, base);
    assert Get(kept, key) == if key in fields then StripField(fields[key], Get(base, key), key) else None;
  }

  lemma StrippedObject(fields: map<string, Json>, base: map<string, Json>)
    ensures Overlay(Object(base), Strip(Object(fields), Some(Object(base)))) == Object(OverlayFields(base, StripFields(fields, base)))
  {
    if StripFields(fields, base) == map[] {
      var laid := OverlayFields(base, map[]);
      forall key | key in base ensures key in laid && laid[key] == base[key] {
        assert LaidField(base[key], None, key) == Overlay(base[key], None) == base[key];
      }
      assert laid == base;
    }
  }

  lemma SameFieldsIff(a: map<string, Json>, b: map<string, Json>)
    ensures a == b <==> forall key :: key in a.Keys + b.Keys ==> Get(a, key) == Get(b, key)
  {
    if forall key :: key in a.Keys + b.Keys ==> Get(a, key) == Get(b, key) {
      forall key ensures key in a <==> key in b
        ensures key in a ==> a[key] == b[key]
      {
        if key in a.Keys + b.Keys {
          assert Get(a, key) == Get(b, key);
        }
      }
      assert a == b;
    }
  }

  /** Reading what was written gives the settings back exactly when they have all default
      keys. */
  lemma {:induction false} RestoredIff(current: Json, defaults: Json)
    ensures Overlay(defaults, Strip(current, Some(defaults))) == current <==> HasDefaultKeys(current, defaults)
    decreases current, 0
  {
    if current.Object? && defaults.Object? {
      var fields, base := current.fields, defaults.fields;
      var laid := OverlayFields(base, StripFields(fields, base));
      StrippedObject(fields, base);
      SameFieldsIff(laid, fields);
      forall key | key in laid.Keys + fields.Keys
        ensures Get(laid, key) == Get(fields, key)
           <==> key in fields && (key in base && !Atomic(key) ==> HasDefaultKeys(fields[key], base[key]))
      {
        ObjectReadBack(fields, base, key);
        if key in fields {
          FieldRestoredIff(fields[key], Get(base, key), key);
        }
      }
      assert laid.Keys == base.Keys + StripFields(fields, base).Keys;
    }
  }

  // ----- nothing superfluous is kept -----

  /** No kept value is its default: objects are compared field by field, and none is kept empty. */
  ghost predicate Sparse(kept: Json, defaults: Json) {
    if kept.Object? && defaults.Object? then
      && kept.fields != map[]
      && (forall key :: key in kept.fields && key in defaults.fields ==>
            if Atomic(key) then kept.fields[key] != defaults.fields[key] else Sparse(kept.fields[key], defaults.fields[key]))
    else kept != defaults
  }

  lemma {:induction false} StrippedIsSparse(current: Json, defaults: Json)
    ensures var r := Strip(current, Some(defaults)); r.Some? ==> Sparse(r.value, defaults)
    decreases current
  {
    if current.Object? && defaults.Object? {
      var kept := StripFields(current.fields, defaults.fields);
      forall key | key in kept && key in defaults.fields
        ensures if Atomic(key) then kept[key] != defaults.fields[key] else Sparse(kept[key], defaults.fields[key])
      {
        assert StripField(current.fields[key], Some(defaults.fields[key]), key) == Some(kept[key]);
        if !Atomic(key) {
          StrippedIsSparse(current.fields[key], defaults.fields[key]);
        }
      }
    }
  }

  lemma KeptField(kept: map<string, Json>, base: map<string, Json>, key: string)
    requires key in OverlayFields(base, kept)
    requires key in kept && key in base && !Atomic(key)
         ==> Strip(Overlay(base[key], Some(kept[key])), Some(base[key])) == Some(kept[key])
    requires key in kept && key in base && Atomic(key) ==> kept[key] != base[key]
    ensures StripField(OverlayFields(base, kept)[key], Get(base, key), key) == Get(kept, key)
  {
    if key in base {
      assert OverlayFields(base, kept)[key] == LaidField(base[key], Get(kept, key), key);
      if key !in kept {
        assert LaidField(base[key], None, key) == Overlay(base[key], None) == base[key];
        SelfStrips(base[key]);
      }
    } else {
      assert OverlayFields(base, kept)[key] == kept[key];
    }
  }

  /** A sparse tree is what stripping keeps of the settings that it reads as: of all sparse trees
      only one reads as given settings. */
  lemma {:induction false} SparseIsKept(kept: Json, defaults: Json)
    requires Sparse(kept, defaults)
    ensures Strip(Overlay(defaults, Some(kept)), Some(defaults)) == Some(kept)
    decreases kept
  {
    if kept.Object? && defaults.Object? {
      var base := defaults.fields;
      var laid := OverlayFields(base, kept.fields);
      forall key | key in laid ensures StripField(laid[key], Get(base, key), key) == Get(kept.fields, key) {
        if key in kept.fields && key in base && !Atomic(key) {
          SparseIsKept(kept.fields[key], base[key]);
        }
        KeptField(kept.fields, base, key);
      }
      assert StripFields(laid, base) == kept.fields;
    }
  }

  /** Nothing is written exactly when the settings are the defaults, given all default keys. */
  lemma NothingKeptIff(current: Json, defaults: Json)
    requires HasDefaultKeys(current, defaults)
    ensures Strip(current, Some(defaults)).None? <==> current == defaults
  {
    RestoredIff(current, defaults);
    if current == defaults {
      SelfStrips(current);
    }
  }

  lemma {:induction false} SelfStrips(j: Json)
    ensures Strip(j, Some(j)).None?
    decreases j
  {
    if j.Object? {
      forall key | key in j.fields ensures StripField(j.fields[key], Get(j.fields, key), key).None? {
        if !Atomic(key) {
          SelfStrips(j.fields[key]);
        }
      }
      assert StripFields(j.fields, j.fields) == map[];
    }
  }

  /** A missing default key comes back: an empty object over a default that is not. */
  lemma MissingKeyIsRestored(key: string, value: Json)
    ensures var current, defaults := Object(map[]), Object(map[key := value]);
      Strip(current, Some(defaults)).None? && Overlay(defaults, None) != current
  {
    assert StripFields(map[], map[key := value]) == map[];
    assert key in map[key := value];
  }

  /** The selection of a model is kept whole or not at all; any other object field by field. */
  lemma SelectionIsKeptWhole(fields: map<string, Json>, base: map<string, Json>, key: string)
    requires key in fields && key in base && fields[key] != base[key]
    ensures key == "textGenerationModelSelection" ==> Get(StripFields(fields, base), key) == Some(fields[key])
    ensures key != "textGenerationModelSelection" ==>
      Get(StripFields(fields, base), key) == Strip(fields[key], Some(base[key]))
  {
    assert StripField(fields[key], Get(base, key), key).Some? ==> key in StripFields(fields, base);
  }

  /** What is written to the settings file. */
  function Written(current: Json, defaults: Json): Json {
    match Strip(current, Some(defaults))
    case None => Object(map[])
    case Some(sparse) => sparse
  }

  lemma EmptyFileReadsAsDefaults(defaults: Json)
    requires defaults.Object?
    ensures Overlay(defaults, Some(Object(map[]))) == defaults
  {
    StrippedObject(defaults.fields, defaults.fields);
    SelfStrips(defaults);
    var kept := StripFields(defaults.fields, defaults.fields);
    assert Strip(defaults, Some(defaults)) == None;
    assert kept == map[];
  }

  /** The settings read from the file are those that were written exactly when they had all
      default keys. */
  lemma WriteThenReadIff(current: Json, defaults: Json)
    requires defaults.Object?
    ensures Overlay(defaults, Some(Written(current, defaults))) == current <==> HasDefaultKeys(current, defaults)
  {
    EmptyFileReadsAsDefaults(defaults);
    RestoredIff(current, defaults);
  }
}
