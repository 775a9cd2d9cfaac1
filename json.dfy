/**
 * Decoded JSON values as Python's `json` module hands them over: an object
 * is a dict, whose iteration order is the order of its keys in the text, so
 * it is kept as an ordered sequence of (key, value) pairs.
 */
module Json {
  import opened Wrappers

  datatype Json =
    | JNull
    | JBool(b: bool)
    | JNum(n: real)
    | JStr(s: string)
    | JArr(items: seq<Json>)
    | JObj(fields: seq<(string, Json)>)

  /** The keys of an object, in order. */
  function Keys(fields: seq<(string, Json)>): (r: seq<string>)
    ensures |r| == |fields|
    ensures forall i :: 0 <= i < |fields| ==> r[i] == fields[i].0
  {
    if fields == [] then [] else [fields[0].0] + Keys(fields[1..])
  }

  /** `key in d` */
  predicate HasKey(fields: seq<(string, Json)>, key: string)
  {
    key in Keys(fields)
  }

  /**
   * `d.get(key)`: the value bound to key, if any.  A decoded dict holds each
   * key once, keeping the last binding of a key the text repeats; the model
   * keeps the fields as written and reads the first, so the two agree
   * exactly on objects with distinct keys.
   */
  function Get(fields: seq<(string, Json)>, key: string): (r: Option<Json>)
    ensures r.Some? <==> HasKey(fields, key)
    ensures r.Some? ==> exists i :: 0 <= i < |fields| && fields[i] == (key, r.value)
  {
    if fields == [] then None
    else if fields[0].0 == key then Some(fields[0].1)
    else Get(fields[1..], key)
  }

  /** `d.get(key) is not None`: present and not JSON null. */
  predicate Present(fields: seq<(string, Json)>, key: string)
  {
    Get(fields, key).Some? && Get(fields, key).value != JNull
  }

  /**
   * `entry.update(item)`: keys of `base` keep their place and take the
   * value from `item` when it has them; keys new to `base` follow in
   * `item`'s order.
   */
  function Update(base: seq<(string, Json)>, item: seq<(string, Json)>): (r: seq<(string, Json)>)
    decreases |item|
  {
    if item == [] then base
    else Update(Set(base, item[0].0, item[0].1), item[1..])
  }

  /** `d[key] = value` */
  function Set(fields: seq<(string, Json)>, key: string, value: Json): (r: seq<(string, Json)>)
    ensures Get(r, key) == Some(value)
    ensures forall k :: k != key ==> Get(r, k) == Get(fields, k)
  {
    if fields == [] then [(key, value)]
    else if fields[0].0 == key then [(key, value)] + fields[1..]
    else [fields[0]] + Set(fields[1..], key, value)
  }

  /** Assigning keeps the key order: an existing key stays in place, a new one goes last. */
  lemma {:induction false} SetKeys(fields: seq<(string, Json)>, key: string, value: Json)
    ensures HasKey(fields, key) ==> Keys(Set(fields, key, value)) == Keys(fields)
    ensures !HasKey(fields, key) ==> Keys(Set(fields, key, value)) == Keys(fields) + [key]
  {
    if fields != [] && fields[0].0 != key {
      SetKeys(fields[1..], key, value);
      assert Keys(fields) == [fields[0].0] + Keys(fields[1..]);
    }
  }

  /** A Python dict: no key occurs twice. */
  predicate DistinctKeys(fields: seq<(string, Json)>)
  {
    forall i, j :: 0 <= i < j < |fields| ==> fields[i].0 != fields[j].0
  }

  /** After an update, a key takes the item's value if the item has it, else the base's. */
  lemma {:induction false} UpdateGet(base: seq<(string, Json)>, item: seq<(string, Json)>, k: string)
    requires DistinctKeys(item)
    ensures Get(Update(base, item), k) == if HasKey(item, k) then Get(item, k) else Get(base, k)
    decreases |item|
  {
    if item != [] {
      assert DistinctKeys(item[1..]);
      UpdateGet(Set(base, item[0].0, item[0].1), item[1..], k);
      if item[0].0 == k {
        assert !HasKey(item[1..], k);
      }
    }
  }
}
