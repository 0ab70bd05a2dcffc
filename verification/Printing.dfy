/** The store printed as command lines, and what printing leaves of the store: every expired key is
    gone and every other key has been read. */
module Printing {
  import opened Text
  import opened StoreSpec
  import LRU

  /** The remaining TTL in whole seconds, -1 without a deadline. */
  function TtlOf(s: State, now: int, k: string): int {
    if k in s.ttl.deadlines then Seconds(s.ttl.deadlines[k] - now) else -1
  }

  function ExpireLine(k: string, seconds: int): seq<string> {
    if seconds > 0 then ["EXPIRE " + k + " " + IntText(seconds)] else []
  }

  /** The lines that recreate one key. */
  function LinesFor(k: string, v: Value, seconds: int): seq<string> {
    match v
    case Str(x) =>
      if seconds > 0 then ["SET " + k + " " + x + " EX " + IntText(seconds)] else ["SET " + k + " " + x]
    case List(l) =>
      (if l != [] then ["RPUSH " + k + " " + Join(l)] else []) + ExpireLine(k, seconds)
    case Hash(h) =>
      (if h.keys != [] then ["HSET " + k + " " + Join(Flat(h.keys, h.at))] else []) + ExpireLine(k, seconds)
  }

  function LinesForAll(s: State, now: int, keys: seq<string>): seq<string> {
    if keys == [] then []
    else
      var n := |keys| - 1;
      LinesForAll(s, now, keys[..n])
      + if keys[n] in s.values.at then LinesFor(keys[n], s.values.at[keys[n]], TtlOf(s, now, keys[n])) else []
  }

  /** Reading every key in order makes the order of use the reverse of the insertion order. */
  function TouchAll(recency: seq<string>, keys: seq<string>): seq<string> {
    if keys == [] then recency
    else LRU.Touched(TouchAll(recency, keys[..|keys| - 1]), keys[|keys| - 1])
  }

  lemma {:induction false} NothingTouched(recency: seq<string>)
    ensures TouchAll(recency, []) == recency
  {
  }

  lemma {:induction false} TouchNext(recency: seq<string>, keys: seq<string>, i: nat)
    requires i < |keys|
    ensures TouchAll(recency, keys[..i + 1]) == LRU.Touched(TouchAll(recency, keys[..i]), keys[i])
  {
    assert keys[..i + 1][..i] == keys[..i];
  }

  /** What a rewrite leaves of the store: expired keys are gone, every other key has been read. */
  function Compacted(s: State, now: int): State {
    var p := Purge(s, now, s.values.keys);
    p.(recency := TouchAll(p.recency, p.values.keys))
  }

  /** The lines a rewrite starts its new file with. */
  function Compact(s: State, now: int): seq<string> {
    var p := Purge(s, now, s.values.keys);
    LinesForAll(p, now, p.values.keys)
  }
}
