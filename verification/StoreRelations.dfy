/** How two store states compare when one of them holds fewer keys. */
module StoreRelations {
  import opened Sequences
  import opened StoreSpec
  import opened StoreFacts
  import LRU

  /** Every key of `t` is in `s`, with the same value and the same deadline. */
  ghost predicate Agrees(t: State, s: State) {
    && t.values.at.Keys <= s.values.at.Keys
    && (forall k :: k in t.values.at ==> t.values.at[k] == s.values.at[k])
    && (forall k :: k in t.values.at ==> t.Deadline(k) == s.Deadline(k))
  }

  /** `t` is what remains of `s` after removing keys: nothing is reordered. */
  ghost predicate Restricts(t: State, s: State) {
    && Agrees(t, s)
    && t.capacity == s.capacity
    && t.values.keys == Keep(s.values.keys, t.values.at.Keys)
    && t.recency == Keep(s.recency, t.values.at.Keys)
  }

  lemma {:induction false} RestrictsRefl(s: State)
    requires s.Valid()
    ensures Restricts(s, s)
  {
    KeepAll(s.values.keys, s.values.at.Keys);
    KeepAll(s.recency, s.values.at.Keys);
  }

  lemma {:induction false} RestrictsAgrees(t: State, s: State)
    requires Restricts(t, s)
    ensures Agrees(t, s) && t.capacity == s.capacity
  {
  }

  lemma {:induction false} RestrictsTrans(u: State, t: State, s: State)
    requires Restricts(u, t) && Restricts(t, s)
    ensures Restricts(u, s)
  {
    var a, b := t.values.at.Keys, u.values.at.Keys;
    KeepKeep(s.values.keys, a, b);
    KeepKeep(s.recency, a, b);
    assert a * b == b;
  }

  lemma {:induction false} RemoveParts(s: State, k: string)
    requires s.Valid()
    ensures RemoveKey(s, k).values.keys == Without(s.values.keys, k)
    ensures RemoveKey(s, k).recency == Without(s.recency, k)
    ensures RemoveKey(s, k).capacity == s.capacity
  {
  }

  lemma {:induction false} AgreesByMaps(t: State, s: State)
    requires exists gone: set<string> ::
               t.values.at == s.values.at - gone && t.ttl.deadlines == s.ttl.deadlines - gone
    ensures Agrees(t, s)
  {
  }

  /** Removing a key removes that key only. */
  lemma {:induction false} RemoveRestricts(s: State, k: string)
    requires s.Valid()
    ensures RemoveKey(s, k).Valid() && Restricts(RemoveKey(s, k), s)
    ensures RemoveKey(s, k).values.at.Keys == s.values.at.Keys - {k}
    ensures |RemoveKey(s, k).values.keys| == |s.values.keys| - if s.Has(k) then 1 else 0
  {
    RemoveKeyValid(s, k);
    RemoveParts(s, k);
    var keys := s.values.at.Keys;
    KeepAll(s.values.keys, keys);
    KeepAll(s.recency, keys);
    hide State.Valid, Keep, RemoveKey, Without;
    KeepWithout(s.values.keys, keys, k);
    KeepWithout(s.recency, keys, k);
    AgreesByMaps(RemoveKey(s, k), s);
  }

  lemma {:induction false} GateRestricts(s: State, now: int, k: string)
    requires s.Valid()
    ensures Gate(s, now, k).Valid() && Restricts(Gate(s, now, k), s)
    ensures Gate(s, now, k).values.at.Keys ==
            if s.ttl.IsExpired(k, now) then s.values.at.Keys - {k} else s.values.at.Keys
    ensures |Gate(s, now, k).values.keys| ==
            |s.values.keys| - if s.Has(k) && s.ttl.IsExpired(k, now) then 1 else 0
  {
    hide State.Valid, Keep, RemoveKey, Agrees;
    GateValid(s, now, k);
    RemoveRestricts(s, k);
    RestrictsRefl(s);
    if s.Has(k) && s.ttl.IsExpired(k, now) {
      SameContents(RemoveKey(s, k), Gate(s, now, k), s);
    } else {
      assert !s.Has(k) ==> s.values.at.Keys - {k} == s.values.at.Keys;
    }
  }

  /** Reserving takes away nothing but the least recently used key, and only from a full store. */
  lemma {:induction false} ReserveRestricts(s: State, now: int, k: string)
    requires s.Valid()
    ensures Reserve(s, now, k).Valid() && Restricts(Reserve(s, now, k), s)
    ensures !Full(s, k) ==> Reserve(s, now, k) == s
    ensures Full(s, k) ==>
              && s.recency != []
              && Reserve(s, now, k).values.at.Keys == s.values.at.Keys - {s.recency[|s.recency| - 1]}
    ensures |Reserve(s, now, k).values.keys| == |s.values.keys| - if Full(s, k) then 1 else 0
  {
    hide State.Valid, Keep, RemoveKey, Agrees;
    ReserveValid(s, now, k);
    RecencySize(s);
    RestrictsRefl(s);
    if Full(s, k) {
      Parts(s);
      assert s.recency != [];
      RemoveRestricts(s, s.recency[|s.recency| - 1]);
      LastHeld(s);
      SameContents(RemoveKey(s, s.recency[|s.recency| - 1]), Reserve(s, now, k), s);
    }
  }

  lemma {:induction false} LastHeld(s: State)
    requires s.Valid() && s.recency != []
    ensures s.Has(s.recency[|s.recency| - 1])
  {
  }

  /** The counters and listener logs play no part in a restriction. */
  lemma {:induction false} SameContents(t: State, u: State, s: State)
    requires Restricts(t, s)
    requires u.values == t.values && u.recency == t.recency && u.ttl == t.ttl && u.capacity == t.capacity
    ensures Restricts(u, s)
  {
  }

  /** Purging removes exactly the listed keys that have expired. */
  lemma {:induction false} PurgeRestricts(s: State, now: int, ks: seq<string>)
    requires s.Valid()
    ensures Purge(s, now, ks).Valid() && Restricts(Purge(s, now, ks), s)
    ensures forall k :: Purge(s, now, ks).Has(k) <==> s.Has(k) && !(k in ks && s.ttl.IsExpired(k, now))
    decreases ks
  {
    hide State.Valid, Keep, Gate, Restricts;
    if ks == [] {
      RestrictsRefl(s);
    } else {
      var g := Gate(s, now, ks[0]);
      GateRestricts(s, now, ks[0]);
      PurgeRestricts(g, now, ks[1..]);
      RestrictsTrans(Purge(s, now, ks), g, s);
      RestrictsAgrees(g, s);
      forall k ensures Purge(s, now, ks).Has(k) <==> s.Has(k) && !(k in ks && s.ttl.IsExpired(k, now)) {
        if g.Has(k) { assert g.Deadline(k) == s.Deadline(k); }
      }
    }
  }

  /** Reclaiming removes exactly the listed keys. */
  lemma {:induction false} ReclaimRestricts(s: State, ks: seq<string>)
    requires s.Valid()
    ensures Reclaim(s, ks).Valid() && Restricts(Reclaim(s, ks), s)
    ensures forall k :: Reclaim(s, ks).Has(k) <==> s.Has(k) && k !in ks
    decreases ks
  {
    hide State.Valid, Keep;
    if ks == [] {
      RestrictsRefl(s);
    } else {
      var r := ReclaimOne(s, ks[0]);
      RemoveRestricts(s, ks[0]);
      ReclaimOneValid(s, ks[0]);
      ReclaimRestricts(r, ks[1..]);
      RestrictsTrans(Reclaim(s, ks), r, s);
    }
  }

  /** A use of `k` in a sub-sequence and in the whole. */
  lemma {:induction false} KeepTouched(r: seq<string>, keep: set<string>, k: string)
    ensures Keep(LRU.Touched(r, k), keep + {k}) == LRU.Touched(Keep(r, keep), k)
    ensures k !in keep ==> Keep(LRU.Touched(r, k), keep) == Keep(r, keep)
  {
    var rest := Without(r, k);
    KeepWithout(r, keep, k);
    KeepAgree(rest, keep + {k}, keep);
    assert LRU.Touched(r, k)[1..] == rest;
  }

  /** The table looks only at the key's own value and deadline. */
  lemma {:induction false} SameEffect(t: State, s: State, now: int, k: string, act: Act)
    requires t.Lookup(k) == s.Lookup(k) && t.Deadline(k) == s.Deadline(k)
    ensures EffectOf(t, now, k, act) == EffectOf(s, now, k, act)
  {
  }

  /** What an effect other than a removal leaves of values and deadlines, when no room is needed. */
  lemma {:induction false} CommitInPlace(s: State, now: int, k: string, e: Effect)
    requires s.Valid() && Sane(e, s.Has(k)) && !e.change.Drop? && !Full(s, k)
    ensures var u := Commit(s, now, k, e);
            && u.values == (if e.change.Write? then s.values.Put(k, e.change.value) else s.values)
            && u.recency == (if e.touch then LRU.Touched(s.recency, k) else s.recency)
            && u.ttl.deadlines == (match e.ttl
                                   case KeepTtl => s.ttl.deadlines
                                   case SetTtl(at) => s.ttl.deadlines[k := at]
                                   case ClearTtl => s.ttl.deadlines - {k})
            && u.capacity == s.capacity
            && u.expired == s.expired && u.evicted == s.evicted
  {
    ChangeTtlValid(s.ttl, k, e.ttl);
    if s.Has(k) { ReserveValid(s, now, k); }
  }

  /** Dropping a key is removing it; only a held key is dropped. */
  lemma {:induction false} DropCommits(s: State, now: int, k: string, e: Effect)
    requires Sane(e, s.Has(k)) && e.change.Drop?
    ensures s.Has(k) && Commit(s, now, k, e) == RemoveKey(s, k)
  {
  }

  /** A write is the write into the store with room made. */
  lemma {:induction false} CommitAfterReserve(s: State, now: int, k: string, e: Effect)
    requires s.Valid() && e.change.Write?
    ensures Reserve(s, now, k).Valid() && !Full(Reserve(s, now, k), k)
    ensures Reserve(s, now, k).Has(k) == s.Has(k)
    ensures Commit(s, now, k, e) == Commit(Reserve(s, now, k), now, k, e)
  {
    ReserveValid(s, now, k);
    ReserveRestricts(s, now, k);
  }
}
