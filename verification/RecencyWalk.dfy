/** Listing the keys by recency while reclaiming expired ones: the walk loses its place at the first
    key it reclaims, because unlinking a node clears its link to the next one. */
module RecencyWalk {
  import opened Sequences
  import opened Expiry
  import opened StoreSpec
  import opened StoreFacts

  /** The position of the first expired key, or the end. */
  function FirstExpired(t: Table, now: int, keys: seq<string>): (n: nat)
    ensures n <= |keys|
    ensures forall i :: 0 <= i < n ==> !t.IsExpired(keys[i], now)
    ensures n < |keys| ==> t.IsExpired(keys[n], now)
  {
    if keys == [] || t.IsExpired(keys[0], now) then 0 else 1 + FirstExpired(t, now, keys[1..])
  }

  /** The keys the walk yields. */
  function Yielded(s: State, now: int): seq<string> {
    s.recency[..FirstExpired(s.ttl, now, s.recency)]
  }

  /** What the walk leaves of the store: one expired key fewer at most. */
  function Walked(s: State, now: int): State {
    var n := FirstExpired(s.ttl, now, s.recency);
    if n == |s.recency| then s else Gate(s, now, s.recency[n])
  }

  /** The keys that have not expired. */
  function Alive(s: State, now: int): set<string> {
    set k | k in s.recency && !s.ttl.IsExpired(k, now)
  }

  /** The listing yields all live keys by recency if and only if no live key comes after the first
      expired one. */
  lemma {:induction false} WalkComplete(s: State, now: int)
    ensures var n := FirstExpired(s.ttl, now, s.recency);
            Yielded(s, now) == Keep(s.recency, Alive(s, now))
            <==> forall i :: n <= i < |s.recency| ==> s.ttl.IsExpired(s.recency[i], now)
  {
    hide Table.IsExpired, Keep, FirstExpired;
    var n := FirstExpired(s.ttl, now, s.recency);
    Split(s.recency, n);
    FrontAlive(s, now, n);
    KeepAppend(s.recency[..n], s.recency[n..], Alive(s, now));
    KeepAll(s.recency[..n], Alive(s, now));
    LongerBy(s.recency[..n], Keep(s.recency[n..], Alive(s, now)));
    NoneKept(s.recency[n..], Alive(s, now));
    RestDead(s, now, n);
  }

  lemma {:induction false} Split(s: seq<string>, n: nat)
    requires n <= |s|
    ensures s[..n] + s[n..] == s
  {
  }

  lemma {:induction false} FrontAlive(s: State, now: int, n: nat)
    requires n <= |s.recency| && forall i :: 0 <= i < n ==> !s.ttl.IsExpired(s.recency[i], now)
    ensures forall k :: k in s.recency[..n] ==> k in Alive(s, now)
  {
    hide Table.IsExpired;
  }

  lemma {:induction false} RestDead(s: State, now: int, n: nat)
    requires n <= |s.recency|
    ensures (forall k :: k in s.recency[n..] ==> k !in Alive(s, now))
            <==> forall i :: n <= i < |s.recency| ==> s.ttl.IsExpired(s.recency[i], now)
  {
    hide Table.IsExpired;
    forall i | n <= i < |s.recency| ensures s.recency[i] in s.recency[n..] && s.recency[i] in s.recency {
      assert s.recency[n..][i - n] == s.recency[i];
    }
    forall k | k in s.recency[n..] ensures exists i :: n <= i < |s.recency| && s.recency[i] == k {
      var j :| 0 <= j < |s.recency[n..]| && s.recency[n..][j] == k;
      assert s.recency[n + j] == k;
    }
  }

  lemma {:induction false} NoneKept(s: seq<string>, keep: set<string>)
    ensures Keep(s, keep) == [] <==> forall k :: k in s ==> k !in keep
  {
    if Keep(s, keep) != [] {
      assert Keep(s, keep)[0] in Keep(s, keep);
    }
  }

  lemma {:induction false} HeldByRecency(s: State, i: nat)
    requires s.Valid() && i < |s.recency|
    ensures s.Has(s.recency[i])
  {
  }

  /** A held key goes through the gate if and only if it has not expired. */
  lemma {:induction false} GateExpired(s: State, now: int, k: string)
    requires s.Valid() && s.Has(k)
    ensures Gate(s, now, k).Has(k) <==> !s.ttl.IsExpired(k, now)
  {
  }

  /** The walk reclaims the first expired key, reports it, and leaves every other key as it was. */
  lemma {:induction false} WalkReclaims(s: State, now: int)
    requires s.Valid()
    ensures var n, u := FirstExpired(s.ttl, now, s.recency), Walked(s, now);
            && u.Valid()
            && (n == |s.recency| ==> u == s)
            && (n < |s.recency| ==> u.expired == s.expired + [s.recency[n]])
            && (n < |s.recency| ==> u.values.at == s.values.at - {s.recency[n]})
            && (n < |s.recency| ==> u.ttl.deadlines == s.ttl.deadlines - {s.recency[n]})
  {
    hide State.Valid, RemoveKey, Table.IsExpired;
    var n := FirstExpired(s.ttl, now, s.recency);
    if n < |s.recency| {
      HeldByRecency(s, n);
      RemoveKeyValid(s, s.recency[n]);
      RemoveKeyReports(s, s.recency[n]);
      GateValid(s, now, s.recency[n]);
    }
  }

  lemma {:induction false} RemoveKeyReports(s: State, k: string)
    ensures RemoveKey(s, k).expired == s.expired
  {
  }
}
