/** The static subject → chapter → topic hierarchy.

    The source keeps it as a nested JavaScript object literal; here an object is an
    ordered sequence of key/value entries, so that the order that `Object.keys`
    enumerates is explicit (insertion order; JavaScript lists integer-like keys first,
    and none occur in the hierarchy literal), and a property read `obj[key]` is `Get`,
    which gives `None` where JavaScript gives `undefined`.
 */
module Hierarchy {

  datatype Option<T> = None | Some(value: T)

  /** One own property of a plain object. */
  datatype Entry<V> = Entry(key: string, value: V)

  /** A plain object with insertion-ordered keys. */
  type Dict<V> = seq<Entry<V>>

  /** chapter name → ordered list of topic names */
  type Chapters = Dict<seq<string>>

  /** subject name → chapters (the `FilterData` type of the source) */
  type FilterData = Dict<Chapters>

  /** `Object.keys(obj)`: the keys in insertion order (JavaScript lists integer-like
      keys first; none occur in the hierarchy literal). */
  function Keys<V>(obj: Dict<V>): (r: seq<string>)
    ensures |r| == |obj|
    ensures forall i :: 0 <= i < |obj| ==> r[i] == obj[i].key
  {
    seq(|obj|, i requires 0 <= i < |obj| => obj[i].key)
  }

  predicate Distinct(names: seq<string>) {
    forall i, j :: 0 <= i < j < |names| ==> names[i] != names[j]
  }

  /** What a JavaScript object literal can be: no key appears twice, at either level. */
  predicate WellFormed(d: FilterData) {
    && Distinct(Keys(d))
    && forall i :: 0 <= i < |d| ==> Distinct(Keys(d[i].value))
  }

  /** `obj[key]`: the value stored under `key`, or `None` (undefined) when it is not a key. */
  function Get<V>(obj: Dict<V>, key: string): (r: Option<V>)
    ensures r.None? <==> key !in Keys(obj)
    ensures r.Some? ==> exists i :: 0 <= i < |obj| && obj[i].key == key && obj[i].value == r.value
    decreases |obj|
  {
    if obj == [] then None
    else
      assert Keys(obj) == [obj[0].key] + Keys(obj[1..]);
      if obj[0].key == key then Some(obj[0].value)
      else
        var r := Get(obj[1..], key);
        assert r.Some? ==> obj[1..][0] == obj[1];
        r
  }

  /** With distinct keys, reading the key of the i-th entry yields the i-th value. */
  lemma {:induction false} GetEntry<V>(obj: Dict<V>, i: nat)
    requires Distinct(Keys(obj))
    requires i < |obj|
    ensures Get(obj, obj[i].key) == Some(obj[i].value)
    decreases i
  {
    if i > 0 {
      assert Keys(obj)[0] != Keys(obj)[i];
      assert Keys(obj[1..]) == Keys(obj)[1..];
      GetEntry(obj[1..], i - 1);
    }
  }
}
