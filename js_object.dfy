/**
 * A plain JavaScript object as a mutable bag of own properties, and the
 * effect of `delete obj[key]` for a list of keys.
 */
module JsObjects {

  class JsObject<V> {
    var props: map<string, V>

    constructor (props: map<string, V>)
      ensures this.props == props
    {
      this.props := props;
    }
  }

  /**
   * The properties left after deleting keys[0], keys[1], ... in turn:
   * exactly those whose key is not listed, with their values.
   */
  function Omit<V>(m: map<string, V>, keys: seq<string>): (r: map<string, V>)
    ensures r.Keys == m.Keys - set k | k in keys
    ensures forall k :: k in r ==> r[k] == m[k]
  {
    if keys == [] then m
    else
      var r := Omit(m, keys[..|keys| - 1]) - {keys[|keys| - 1]};
      assert keys == keys[..|keys| - 1] + [keys[|keys| - 1]];
      r
  }

  /** Listing a key again, or a key the object does not have, deletes nothing more. */
  lemma OmitRedundantKey<V>(m: map<string, V>, keys: seq<string>, k: string)
    requires k in keys || k !in m
    ensures Omit(m, keys + [k]) == Omit(m, keys)
  {
    assert (keys + [k])[..|keys|] == keys;
  }

  /** Deleting the same keys a second time changes nothing. */
  lemma OmitIdempotent<V>(m: map<string, V>, keys: seq<string>)
    ensures Omit(Omit(m, keys), keys) == Omit(m, keys)
  {
  }

  /** Only the set of listed keys matters, not their order or repetition. */
  lemma OmitDependsOnKeySet<V>(m: map<string, V>, keys1: seq<string>, keys2: seq<string>)
    requires forall k :: k in keys1 <==> k in keys2
    ensures Omit(m, keys1) == Omit(m, keys2)
  {
    assert (set k | k in keys1) == (set k | k in keys2);
  }
}
