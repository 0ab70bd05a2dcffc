/** The insertion-ordered map that a JavaScript `Map` is: iteration follows first insertion,
    overwriting keeps a key's place, and deleting then re-adding moves it to the end. */
module OrderedMap {
  import opened Sequences

  datatype OMap<V> = OMap(keys: seq<string>, at: map<string, V>)
  {
    ghost predicate Valid() {
      NoDup(keys) && forall k :: k in keys <==> k in at
    }

    function Put(k: string, v: V): OMap<V> {
      OMap(if k in at then keys else keys + [k], at[k := v])
    }

    function Remove(k: string): OMap<V> {
      OMap(Without(keys, k), at - {k})
    }
  }

  lemma {:induction false} PutValid<V>(m: OMap<V>, k: string, v: V)
    requires m.Valid()
    ensures m.Put(k, v).Valid()
    ensures |m.Put(k, v).keys| == |m.keys| + if k in m.at then 0 else 1
  {
  }

  /** Writing a key twice is writing it once. */
  lemma {:induction false} PutTwice<V>(m: OMap<V>, k: string, v: V, w: V)
    ensures m.Put(k, v).Put(k, w) == m.Put(k, w)
  {
  }

  lemma {:induction false} RemoveValid<V>(m: OMap<V>, k: string)
    requires m.Valid()
    ensures m.Remove(k).Valid()
    ensures |m.Remove(k).keys| == |m.keys| - if k in m.at then 1 else 0
  {
    WithoutNoDup(m.keys, k);
  }

  lemma {:induction false} SizeIsKeys<V>(m: OMap<V>)
    requires m.Valid()
    ensures |m.keys| == |m.at|
  {
    NoDupSize(m.keys, m.at.Keys);
  }
}
