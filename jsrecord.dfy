/** A plain JavaScript object used as a dictionary, `Record<string, V>`: a map together with
    the order in which its keys were first assigned, which `Object.keys` and `Object.entries`
    report (the keys here are identifiers, never integer-like). */
module JsRecord {
  import opened Wrappers
  import Seqs

  datatype Rec<V> = Rec(keys: seq<string>, entries: map<string, V>)

  /** The key order lists each entry once. */
  predicate Valid<V>(r: Rec<V>) {
    Seqs.Distinct(r.keys) && r.entries.Keys == set k | k in r.keys
  }

  /** `{}` */
  function Empty<V>(): (r: Rec<V>)
    ensures Valid(r) && r.entries == map[]
  {
    Rec([], map[])
  }

  /** `obj[k] = v`: a new key goes to the end of the order, an existing one keeps its place. */
  function Put<V>(r: Rec<V>, k: string, v: V): (r': Rec<V>)
    requires Valid(r)
    ensures Valid(r')
    ensures r'.entries == r.entries[k := v]
    ensures r'.keys == if k in r.entries then r.keys else r.keys + [k]
  {
    if k in r.entries then Rec(r.keys, r.entries[k := v])
    else Rec(r.keys + [k], r.entries[k := v])
  }

  /** `obj[k]`, which is `undefined` for a key never assigned. */
  function Get<V>(r: Rec<V>, k: string): Option<V> {
    if k in r.entries then Some(r.entries[k]) else None
  }
}
