/**
 * The prefixed store of frontend/src/utils/storage.js over `localStorage`,
 * the string-to-string storage area of section 12 "Web storage" of the
 * WHATWG HTML Standard (`getItem` answers null for a missing key, `setItem`
 * stores the string conversion of its value, `removeItem` drops the key).
 * JSON is an abstract pair: `stringify` yields a text, `undefined` for a
 * value JSON cannot represent, or an exception; `parse` yields None when it
 * throws. `quotaExceeded` says whether `setItem` throws because the storage
 * area cannot hold the new value; `getItemThrows` and `removeThrows` say
 * whether `getItem` or `removeItem` throw (storage disabled or denied).
 * Every such exception is caught by the operation itself.
 */
module WebStorage {
  import opened Wrappers

  const StoragePrefix: string := "haus_"

  /** The outcome of `JSON.stringify(value)`. */
  datatype Serialized = Text(text: string) | NoText | Throws

  datatype Json<!V> = Json(stringify: V -> Serialized, parse: string -> Option<V>)

  /** `value` is written as a text that parses back to it. */
  ghost predicate RoundTrips<V>(json: Json<V>, value: V)
  {
    json.stringify(value).Text? && json.parse(json.stringify(value).text) == Some(value)
  }

  function StorageKey(key: string): (k: string)
    ensures |k| == |StoragePrefix| + |key| && k[..|StoragePrefix|] == StoragePrefix && k[|StoragePrefix|..] == key
  {
    StoragePrefix + key
  }

  /** The storage area after `save(key, value)`; a throwing `stringify` or `setItem` is caught and writes nothing. */
  function Saved<V>(items: map<string, string>, key: string, value: V, json: Json<V>, quotaExceeded: bool): map<string, string>
  {
    if quotaExceeded then items
    else
      match json.stringify(value)
      case Text(t) => items[StorageKey(key) := t]
      case NoText => items[StorageKey(key) := "undefined"]
      case Throws => items
  }

  /** The value `load(key, default)` returns; a throwing `getItem` or `parse` is caught and gives the default. */
  function Loaded<V>(items: map<string, string>, key: string, default: V, json: Json<V>, getItemThrows: bool): V
  {
    if getItemThrows || StorageKey(key) !in items then default
    else json.parse(items[StorageKey(key)]).GetOr(default)
  }

  /** The storage area after `remove(key)`; a throwing `removeItem` is caught and removes nothing. */
  function Removed(items: map<string, string>, key: string, removeThrows: bool): map<string, string>
  {
    if removeThrows then items else items - {StorageKey(key)}
  }

  /** The `storage` object over one storage area. */
  class Storage<V> {
    var items: map<string, string>
    const json: Json<V>

    constructor(items: map<string, string>, json: Json<V>)
      ensures this.items == items && this.json == json
    {
      this.items := items;
      this.json := json;
    }

    method Save(key: string, value: V, quotaExceeded: bool)
      modifies this
      ensures items == Saved(old(items), key, value, json, quotaExceeded)
    {
      match json.stringify(value)
      case Text(t) =>
        if !quotaExceeded {
          items := items[StorageKey(key) := t];
        }
      case NoText =>
        if !quotaExceeded {
          items := items[StorageKey(key) := "undefined"];
        }
      case Throws =>
    }

    method Load(key: string, default: V, getItemThrows: bool) returns (v: V)
      ensures v == Loaded(items, key, default, json, getItemThrows)
      ensures getItemThrows || StorageKey(key) !in items ==> v == default
      ensures !getItemThrows && StorageKey(key) in items && json.parse(items[StorageKey(key)]).None? ==> v == default
      ensures !getItemThrows && StorageKey(key) in items && json.parse(items[StorageKey(key)]).Some? ==>
        v == json.parse(items[StorageKey(key)]).value
    {
      var k := StorageKey(key);
      if getItemThrows || k !in items {
        return default;
      }
      match json.parse(items[k])
      case Some(parsed) => v := parsed;
      case None => v := default;
    }

    method Remove(key: string, removeThrows: bool)
      modifies this
      ensures items == Removed(old(items), key, removeThrows)
    {
      if !removeThrows {
        items := items - {StorageKey(key)};
      }
    }
  }

  /** Distinct keys have distinct storage keys. */
  lemma StorageKeyInjective(a: string, b: string)
    ensures StorageKey(a) == StorageKey(b) ==> a == b
  {
    if StorageKey(a) == StorageKey(b) {
      assert a == StorageKey(a)[|StoragePrefix|..];
    }
  }

  /** Loading what was saved gives the value back, for values JSON round-trips. */
  lemma LoadAfterSave<V>(items: map<string, string>, key: string, value: V, default: V, json: Json<V>)
    requires RoundTrips(json, value)
    ensures Loaded(Saved(items, key, value, json, false), key, default, json, false) == value
  {
  }

  /** A failed save keeps what was stored before: loading still gives the earlier value. */
  lemma FailedSaveKeepsOldValue<V>(items: map<string, string>, key: string, value: V, default: V, json: Json<V>)
    ensures Loaded(Saved(items, key, value, json, true), key, default, json, false) == Loaded(items, key, default, json, false)
  {
  }

  /** A `getItem` that throws is caught: loading gives the default whatever is stored. */
  lemma ThrowingLoadGivesDefault<V>(items: map<string, string>, key: string, default: V, json: Json<V>)
    ensures Loaded(items, key, default, json, true) == default
  {
  }

  /** After `remove(key)`, loading gives the default. */
  lemma LoadAfterRemove<V>(items: map<string, string>, key: string, default: V, json: Json<V>)
    ensures Loaded(Removed(items, key, false), key, default, json, false) == default
  {
  }

  /** A `removeItem` that throws is caught: the storage area, and so every later load, is unchanged. */
  lemma FailedRemoveKeepsItems<V>(items: map<string, string>, key: string, default: V, json: Json<V>)
    ensures Removed(items, key, true) == items
    ensures Loaded(Removed(items, key, true), key, default, json, false) == Loaded(items, key, default, json, false)
  {
  }

  /** A value JSON cannot represent is stored as the text "undefined", which loads as the default. */
  lemma UnrepresentableLoadsDefault<V>(items: map<string, string>, key: string, value: V, default: V, json: Json<V>)
    requires json.stringify(value) == NoText && json.parse("undefined") == None
    ensures Loaded(Saved(items, key, value, json, false), key, default, json, false) == default
  {
  }

  /** `save(key, value)` writes the one key `"haus_" + key`; every other key is untouched. */
  lemma SaveTouchesOnlyItsKey<V>(items: map<string, string>, key: string, value: V, json: Json<V>, quotaExceeded: bool, k: string)
    requires k != StorageKey(key)
    ensures var after := Saved(items, key, value, json, quotaExceeded);
      (k in after <==> k in items) && (k in items ==> after[k] == items[k])
  {
  }

  /** `remove(key)` drops the one key `"haus_" + key`; every other key is untouched. */
  lemma RemoveTouchesOnlyItsKey(items: map<string, string>, key: string, removeThrows: bool, k: string)
    ensures var after := Removed(items, key, removeThrows);
      && (!removeThrows ==> StorageKey(key) !in after)
      && (k != StorageKey(key) ==> (k in after <==> k in items) && (k in items ==> after[k] == items[k]))
  {
  }

  /** Saving or removing one key does not change what loading another returns. */
  lemma OtherKeysUnaffected<V>(items: map<string, string>, key: string, other: string, value: V, default: V, json: Json<V>,
                               quotaExceeded: bool, removeThrows: bool, getItemThrows: bool)
    requires key != other
    ensures Loaded(Saved(items, key, value, json, quotaExceeded), other, default, json, getItemThrows)
      == Loaded(items, other, default, json, getItemThrows)
    ensures Loaded(Removed(items, key, removeThrows), other, default, json, getItemThrows)
      == Loaded(items, other, default, json, getItemThrows)
  {
    StorageKeyInjective(key, other);
  }
}
