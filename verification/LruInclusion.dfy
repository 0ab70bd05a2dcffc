/** LRU inclusion: run the same operations on a small and a large store, and the large one always
    holds what the small one holds. A larger `maxKeys` never turns a hit into a miss. */
module LruInclusion {
  import opened Options
  import opened Sequences
  import opened OrderedMap
  import opened Expiry
  import opened StoreSpec
  import opened StoreFacts
  import opened StoreRelations
  import LRU

  /** The keys of `s` are keys of `l` with equal values and deadlines, in the same recency order. */
  ghost predicate Sub(s: State, l: State) {
    && s.Valid() && l.Valid()
    && Agrees(s, l)
    && s.recency == Keep(l.recency, s.values.at.Keys)
  }

  /** The inclusion invariant also bounds how many more keys the large store may hold. */
  ghost predicate Inside(s: State, l: State) {
    && Sub(s, l)
    && s.capacity <= l.capacity
    && |l.values.keys| - |s.values.keys| <= l.capacity - s.capacity
  }

  /** Acts whose result on a missing key does not depend on the key being missing: all but the
      ones that extend a list or a hash. */
  predicate Included(act: Act) {
    !act.LPush? && !act.RPush? && !act.HSet?
  }

  predicate IncludedOp(op: Op) {
    match op
    case OnKey(_, act) => Included(act)
    case Keys(_) => true
    case Sweep(_) => false
  }

  lemma {:induction false} RestrictSmall(t: State, s: State, l: State)
    requires Sub(s, l) && t.Valid() && Restricts(t, s)
    ensures Sub(t, l)
  {
    KeepKeep(l.recency, s.values.at.Keys, t.values.at.Keys);
    assert s.values.at.Keys * t.values.at.Keys == t.values.at.Keys;
  }

  lemma {:induction false} RestrictLarge(s: State, l: State, m: State)
    requires Sub(s, l) && m.Valid() && Restricts(m, l)
    requires s.values.at.Keys <= m.values.at.Keys
    ensures Sub(s, m)
  {
    KeepKeep(l.recency, m.values.at.Keys, s.values.at.Keys);
    assert m.values.at.Keys * s.values.at.Keys == s.values.at.Keys;
  }

  /** Removing one key from both stores. */
  lemma {:induction false} RemoveBoth(s: State, l: State, k: string)
    requires Inside(s, l)
    ensures Inside(RemoveKey(s, k), RemoveKey(l, k))
  {
    hide State.Valid, RemoveKey, Keep;
    RemoveRestricts(s, k);
    RemoveRestricts(l, k);
    RestrictSmall(RemoveKey(s, k), s, l);
    RestrictLarge(RemoveKey(s, k), l, RemoveKey(l, k));
  }

  /** The lazy-expiry gate on both. */
  lemma {:induction false} GateBoth(s: State, l: State, now: int, k: string)
    requires Inside(s, l)
    ensures Inside(Gate(s, now, k), Gate(l, now, k))
  {
    hide State.Valid, Gate, Keep;
    var g, h := Gate(s, now, k), Gate(l, now, k);
    GateRestricts(s, now, k);
    GateRestricts(l, now, k);
    RestrictSmall(g, s, l);
    if s.Has(k) { assert s.Deadline(k) == l.Deadline(k); }
    RestrictLarge(g, l, h);
  }

  /** The last element of a sub-sequence that contains the last element of the whole. */
  lemma {:induction false} KeepLast(r: seq<string>, keep: set<string>)
    requires r != [] && r[|r| - 1] in keep
    ensures Keep(r, keep) != [] && Keep(r, keep)[|Keep(r, keep)| - 1] == r[|r| - 1]
  {
    KeepAppend(r[..|r| - 1], [r[|r| - 1]], keep);
    assert r == r[..|r| - 1] + [r[|r| - 1]];
  }

  /** Room for a key that the small store lacks: if the large store must evict, then so must the
      small one, and the large store's victim is the small one's victim or not in it at all. */
  lemma {:induction false} ReserveBoth(s: State, l: State, now: int, k: string)
    requires Inside(s, l) && !s.Has(k)
    ensures var s' := Reserve(s, now, k);
            var l' := Reserve(l, now, k);
            && Sub(s', l') && !s'.Has(k) && (l.Has(k) <==> l'.Has(k))
            && |s'.values.keys| < s.capacity
            && (!l.Has(k) ==> |l'.values.keys| - |s'.values.keys| <= l.capacity - s.capacity)
            && (l.Has(k) ==> |l'.values.keys| - (|s'.values.keys| + 1) <= l.capacity - s.capacity)
  {
    hide State.Valid, Reserve, Keep;
    var s' := Reserve(s, now, k);
    var l' := Reserve(l, now, k);
    ReserveValid(s, now, k);
    ReserveValid(l, now, k);
    ReserveRestricts(s, now, k);
    ReserveRestricts(l, now, k);
    RestrictSmall(s', s, l);
    Parts(s);
    Parts(l);
    if Full(l, k) {
      var victim := l.recency[|l.recency| - 1];
      if victim in s.values.at {
        KeepLast(l.recency, s.values.at.Keys);
      }
    }
    RestrictLarge(s', l, l');
  }

  /** The same in-place effect on a key that the small store holds, or is about to hold. */
  lemma {:induction false} CommitBoth(s: State, l: State, now: int, k: string, e: Effect)
    requires Sub(s, l) && Sane(e, s.Has(k)) && Sane(e, l.Has(k)) && !e.change.Drop?
    requires !Full(s, k) && !Full(l, k)
    requires s.Has(k) || (e.change.Write? && (l.Has(k) ==> !e.ttl.KeepTtl?))
    ensures Sub(Commit(s, now, k, e), Commit(l, now, k, e))
  {
    hide State.Valid, Commit, Keep, Sane, LRU.Touched;
    CommitValid(s, now, k, e);
    CommitValid(l, now, k, e);
    CommitInPlace(s, now, k, e);
    CommitInPlace(l, now, k, e);
    KeepTouched(l.recency, s.values.at.Keys, k);
    SaneWrites(e, s.Has(k));
    var t, m := Commit(s, now, k, e), Commit(l, now, k, e);
    assert t.values.at.Keys == s.values.at.Keys + if e.change.Write? then {k} else {};
    assert s.Has(k) ==> s.values.at.Keys + {k} == s.values.at.Keys;
    if !s.Has(k) && !l.Has(k) {
      Missing(s, k);
      Missing(l, k);
    }
    forall x | x in t.values.at ensures t.Deadline(x) == m.Deadline(x) && t.values.at[x] == m.values.at[x] {
      if x != k { assert s.Deadline(x) == l.Deadline(x); }
      if x == k && s.Has(k) { assert s.Deadline(k) == l.Deadline(k); }
    }
  }

  lemma {:induction false} SaneWrites(e: Effect, present: bool)
    requires Sane(e, present)
    ensures e.change.Write? ==> e.touch
  {
  }

  /** An effect on a key that only the large store holds. */
  lemma {:induction false} CommitLarge(s: State, l: State, now: int, k: string, e: Effect)
    requires Inside(s, l) && !s.Has(k) && l.Has(k) && Sane(e, true)
    ensures Inside(s, Commit(l, now, k, e))
  {
    hide State.Valid, Commit, Keep, Sane, LRU.Touched, RemoveKey, Restricts;
    var m := Commit(l, now, k, e);
    CommitValid(l, now, k, e);
    if e.change.Drop? {
      DropCommits(l, now, k, e);
      RemoveRestricts(l, k);
      RestrictsAgrees(m, l);
      RestrictLarge(s, l, m);
    } else {
      CommitInPlace(l, now, k, e);
      KeepTouched(l.recency, s.values.at.Keys, k);
      forall x | x in s.values.at ensures s.Deadline(x) == m.Deadline(x) {
        assert s.Deadline(x) == l.Deadline(x);
      }
    }
  }

  /** On a missing key, an included act other than SET only looks. */
  lemma {:induction false} MissLooks(act: Act, now: int)
    requires Included(act) && !act.Set?
    ensures Meaning(act, now, None, None) == Look(false, Meaning(act, now, None, None).outcome)
  {
  }

  lemma {:induction false} SetIgnoresValue(act: Act, now: int, v: Option<Value>, d: Option<int>)
    requires act.Set?
    ensures Meaning(act, now, v, d) == Meaning(act, now, None, None)
    ensures Meaning(act, now, v, d).change.Write? && !Meaning(act, now, v, d).ttl.KeepTtl?
  {
  }

  lemma {:induction false} SetSane(act: Act, now: int)
    requires act.Set?
    ensures Sane(Meaning(act, now, None, None), true) && Sane(Meaning(act, now, None, None), false)
  {
  }

  lemma {:induction false} LookLeaves(s: State, now: int, k: string, outcome: Outcome)
    ensures Commit(s, now, k, Look(false, outcome)) == s
  {
  }

  /** SET of a key that the small store lacks. */
  lemma {:induction false} InsertBoth(s: State, l: State, now: int, k: string, e: Effect)
    requires Inside(s, l) && !s.Has(k)
    requires Sane(e, false) && Sane(e, true) && e.change.Write? && (l.Has(k) ==> !e.ttl.KeepTtl?)
    ensures Inside(Commit(s, now, k, e), Commit(l, now, k, e))
  {
    hide State.Valid, Commit, Reserve, Agrees, Keep, Sane, OMap.Put, OMap.Valid;
    CommitAfterReserve(s, now, k, e);
    CommitAfterReserve(l, now, k, e);
    ReserveBoth(s, l, now, k);
    var s', l' := Reserve(s, now, k), Reserve(l, now, k);
    Parts(s');
    Parts(l');
    CommitBoth(s', l', now, k, e);
    CommitInPlace(s', now, k, e);
    CommitInPlace(l', now, k, e);
    PutValid(s'.values, k, e.change.value);
    PutValid(l'.values, k, e.change.value);
    CommitCapacity(s, now, k, e);
    CommitCapacity(l, now, k, e);
  }

  /** The same effect on a key that both stores hold. */
  lemma {:induction false} CommitHit(s: State, l: State, now: int, k: string, e: Effect)
    requires Inside(s, l) && s.Has(k) && l.Has(k) && Sane(e, true)
    ensures Inside(Commit(s, now, k, e), Commit(l, now, k, e))
  {
    if e.change.Drop? {
      RemoveBoth(s, l, k);
    } else {
      hide State.Valid, Keep, Agrees, Sane, Commit;
      CommitBoth(s, l, now, k, e);
      CommitInPlace(s, now, k, e);
      CommitInPlace(l, now, k, e);
    }
  }

  lemma {:induction false} KeyStepInside(s: State, l: State, now: int, k: string, act: Act)
    requires Inside(s, l) && Included(act)
    ensures Inside(KeyStep(s, now, k, act).0, KeyStep(l, now, k, act).0)
    ensures KeyStep(s, now, k, act).1 == KeyStep(l, now, k, act).1 || !s.Live(k, now)
  {
    hide State.Valid, Keep, Meaning, Commit, Sane;
    var g, h := Gate(s, now, k), Gate(l, now, k);
    GateBoth(s, l, now, k);
    var e, f := EffectOf(g, now, k, act), EffectOf(h, now, k, act);
    EffectSane(g, now, k, act);
    EffectSane(h, now, k, act);
    if g.Has(k) {
      assert g.Deadline(k) == h.Deadline(k);
      SameEffect(g, h, now, k, act);
      CommitHit(g, h, now, k, e);
    } else {
      Missing(g, k);
      if act.Set? {
        SetIgnoresValue(act, now, None, None);
        SetSane(act, now);
        SetIgnoresValue(act, now, h.Lookup(k), h.Deadline(k));
        InsertBoth(g, h, now, k, e);
      } else {
        MissLooks(act, now);
        LookLeaves(g, now, k, e.outcome);
        if h.Has(k) {
          CommitLarge(g, h, now, k, f);
        } else {
          Missing(h, k);
          LookLeaves(h, now, k, f.outcome);
        }
      }
    }
  }

  /** Listing all keys purges both stores alike. */
  lemma {:induction false} KeysInside(s: State, l: State, now: int, pattern: string)
    requires Inside(s, l)
    ensures Inside(Step(s, now, Keys(pattern)).0, Step(l, now, Keys(pattern)).0)
    ensures forall k :: k in Step(s, now, Keys(pattern)).1.items ==> k in Step(l, now, Keys(pattern)).1.items
  {
    hide State.Valid, Keep, Purge;
    var p, q := Purge(s, now, s.values.keys), Purge(l, now, l.values.keys);
    PurgeRestricts(s, now, s.values.keys);
    PurgeRestricts(l, now, l.values.keys);
    AllListed(s);
    AllListed(l);
    AllListed(p);
    AllListed(q);
    RestrictSmall(p, s, l);
    forall k | k in p.values.at ensures k in q.values.at {
      assert s.Deadline(k) == l.Deadline(k);
    }
    RestrictLarge(p, l, q);
    forall k | k in s.values.at && k !in p.values.at ensures k in l.values.at && k !in q.values.at {
      assert s.Deadline(k) == l.Deadline(k);
    }
    LostFewer(s.values.at.Keys, l.values.at.Keys, p.values.at.Keys, q.values.at.Keys);
  }

  /** What the small store lost is part of what the large one lost. */
  lemma {:induction false} LostFewer(s: set<string>, l: set<string>, p: set<string>, q: set<string>)
    requires p <= s && q <= l && s - p <= l - q
    ensures |s| - |p| <= |l| - |q|
  {
    SubsetSizeLe(s - p, l - q);
    assert |s - p| == |s| - |p|;
    assert |l - q| == |l| - |q|;
  }

  lemma {:induction false} AllListed(s: State)
    requires s.Valid()
    ensures forall k :: k in s.values.keys <==> s.Has(k)
    ensures |s.values.keys| == |s.values.at.Keys|
  {
    SizeIsKeys(s.values);
  }

  lemma {:induction false} StepInside(s: State, l: State, now: int, op: Op)
    requires Inside(s, l) && IncludedOp(op)
    ensures Inside(Step(s, now, op).0, Step(l, now, op).0)
  {
    match op
    case OnKey(k, act) => KeyStepInside(s, l, now, k, act);
    case Keys(pattern) => KeysInside(s, l, now, pattern);
  }

  /** LRU inclusion over every run: with capacities c <= C the small store's keys are among the
      large store's, with equal values and deadlines and in the same recency order. */
  lemma {:induction false} RunInside(c: nat, C: nat, ops: seq<Timed>)
    requires 1 <= c <= C
    requires forall i :: 0 <= i < |ops| ==> IncludedOp(ops[i].op)
    ensures Inside(Run(Empty(c), ops), Run(Empty(C), ops))
  {
    if ops != [] {
      var n := |ops| - 1;
      RunInside(c, C, ops[..n]);
      StepInside(Run(Empty(c), ops[..n]), Run(Empty(C), ops[..n]), ops[n].now, ops[n].op);
    }
  }

  /** A larger `maxKeys` never turns a hit into a miss: after any run, whatever the small store
      answers about a key it holds, the large store answers too. */
  lemma {:induction false} NoLostHit(c: nat, C: nat, ops: seq<Timed>, now: int, k: string, act: Act)
    requires 1 <= c <= C && Included(act)
    requires forall i :: 0 <= i < |ops| ==> IncludedOp(ops[i].op)
    requires Run(Empty(c), ops).Live(k, now)
    ensures Run(Empty(C), ops).Live(k, now)
    ensures Step(Run(Empty(c), ops), now, OnKey(k, act)).1 == Step(Run(Empty(C), ops), now, OnKey(k, act)).1
  {
    var s, l := Run(Empty(c), ops), Run(Empty(C), ops);
    RunInside(c, C, ops);
    assert s.Deadline(k) == l.Deadline(k);
    KeyStepInside(s, l, now, k, act);
  }

  // ----- Acts that extend a container -----

  /** LPUSH, RPUSH and HSET keep the inclusion when the key is live in both stores or in neither. */
  lemma {:induction false} GrowthInside(s: State, l: State, now: int, k: string, act: Act)
    requires Inside(s, l) && !Included(act)
    requires s.Live(k, now) || !l.Live(k, now)
    ensures Inside(KeyStep(s, now, k, act).0, KeyStep(l, now, k, act).0)
  {
    hide State.Valid, Keep, Meaning, Commit, Sane;
    var g, h := Gate(s, now, k), Gate(l, now, k);
    GateBoth(s, l, now, k);
    GateLive(s, now, k);
    GateLive(l, now, k);
    var e := EffectOf(g, now, k, act);
    EffectSane(g, now, k, act);
    if g.Has(k) {
      assert g.Deadline(k) == h.Deadline(k);
      SameEffect(g, h, now, k, act);
      CommitHit(g, h, now, k, e);
    } else {
      GrowthWrites(act, now);
      Missing(g, k);
      Missing(h, k);
      SameEffect(g, h, now, k, act);
      InsertBoth(g, h, now, k, e);
    }
  }

  lemma {:induction false} GrowthWrites(act: Act, now: int)
    requires !Included(act)
    ensures Meaning(act, now, None, None).change.Write? && Sane(Meaning(act, now, None, None), true)
  {
    EffectSane(Empty(1), now, "", act);
  }

  /** A push keeps the inclusion if and only if the small store still holds the key, or the large
      one does not hold it either: otherwise the two lists differ from then on. */
  lemma {:induction false} PushInclusion(s: State, l: State, now: int, k: string, act: Act)
    requires Inside(s, l) && (act.LPush? || act.RPush?)
    requires l.Has(k) && l.values.at[k].List? ==> l.values.at[k].elems != []
    ensures Inside(KeyStep(s, now, k, act).0, KeyStep(l, now, k, act).0)
            <==> (s.Live(k, now) || !l.Live(k, now))
  {
    if s.Live(k, now) || !l.Live(k, now) {
      GrowthInside(s, l, now, k, act);
    } else {
      GateLive(s, now, k);
      GateLive(l, now, k);
      FreshList(Gate(s, now, k), now, k, act);
      GrownList(l, now, k, act);
    }
  }

  lemma {:induction false} FreshList(s: State, now: int, k: string, act: Act)
    requires !s.Has(k) && (act.LPush? || act.RPush?)
    ensures var u := Commit(s, now, k, EffectOf(s, now, k, act));
            u.Has(k) && u.values.at[k].List? && |u.values.at[k].elems| == |act.pushed|
  {
  }

  lemma {:induction false} GrownList(s: State, now: int, k: string, act: Act)
    requires s.Has(k) && (act.LPush? || act.RPush?)
    requires s.values.at[k].List? ==> s.values.at[k].elems != []
    ensures var u := Commit(s, now, k, EffectOf(s, now, k, act));
            u.Has(k) && (u.values.at[k].List? ==> |u.values.at[k].elems| > |act.pushed|)
  {
  }

  /** HSET on a key that only the large store holds comes to the same in both when there is no
      deadline to keep and the fields that were there leave no trace. */
  ghost predicate Overwritten(l: State, k: string, pairs: seq<(string, string)>)
    requires l.Has(k)
  {
    && l.values.at[k].Hash?
    && PutAll(l.values.at[k].fields, pairs) == PutAll(OMap([], map[]), pairs)
    && l.Deadline(k) == None
  }

  /** HSET keeps the inclusion if and only if the small store still holds the key, the large one
      does not hold it either, or the large one's hash has no deadline and becomes the very hash
      that the pairs alone make. */
  lemma {:induction false} HSetInclusion(s: State, l: State, now: int, k: string, pairs: seq<(string, string)>)
    requires Inside(s, l)
    ensures Inside(KeyStep(s, now, k, HSet(pairs)).0, KeyStep(l, now, k, HSet(pairs)).0)
            <==> (s.Live(k, now) || !l.Live(k, now) || Overwritten(l, k, pairs))
  {
    hide State.Valid, Keep, Commit, Sane, PutAll;
    if s.Live(k, now) || !l.Live(k, now) {
      GrowthInside(s, l, now, k, HSet(pairs));
    } else {
      var g := Gate(s, now, k);
      GateBoth(s, l, now, k);
      GateLive(s, now, k);
      GateLive(l, now, k);
      FreshHash(g, now, k, pairs);
      GrownHash(l, now, k, pairs);
      if Overwritten(l, k, pairs) {
        var e := EffectOf(g, now, k, HSet(pairs)).(ttl := ClearTtl);
        GrowthWrites(HSet(pairs), now);
        Missing(g, k);
        EffectSane(g, now, k, HSet(pairs));
        ClearSane(EffectOf(g, now, k, HSet(pairs)));
        InsertBoth(g, l, now, k, e);
      } else {
        var t, m := KeyStep(s, now, k, HSet(pairs)).0, KeyStep(l, now, k, HSet(pairs)).0;
        assert t.Deadline(k) != m.Deadline(k) || t.values.at[k] != m.values.at[k];
      }
    }
  }

  lemma {:induction false} ClearSane(e: Effect)
    requires e.change.Write?
    ensures forall present :: Sane(e, present) == Sane(e.(ttl := ClearTtl), present)
  {
  }

  /** HSET of a missing key: the hash of the pairs, without a deadline. */
  lemma {:induction false} FreshHash(s: State, now: int, k: string, pairs: seq<(string, string)>)
    requires s.Valid() && !s.Has(k)
    ensures var e := EffectOf(s, now, k, HSet(pairs));
            var u := Commit(s, now, k, e);
            && u.Has(k) && u.values.at[k] == Hash(PutAll(OMap([], map[]), pairs)) && u.Deadline(k) == None
            && u == Commit(s, now, k, e.(ttl := ClearTtl))
  {
    hide State.Valid, LRU.Touched, PutAll, Reserve;
    ReserveRestricts(s, now, k);
    Missing(Reserve(s, now, k), k);
    NothingToClear(Reserve(s, now, k), k);
  }

  /** HSET of a held key. */
  lemma {:induction false} GrownHash(s: State, now: int, k: string, pairs: seq<(string, string)>)
    requires s.Valid() && s.Has(k)
    ensures var u := Commit(s, now, k, EffectOf(s, now, k, HSet(pairs)));
            && u.Has(k) && u.Deadline(k) == s.Deadline(k)
            && (u.values.at[k].Hash? ==>
                  s.values.at[k].Hash? && u.values.at[k] == Hash(PutAll(s.values.at[k].fields, pairs)))
            && (Overwritten(s, k, pairs) ==>
                  u.values.at[k].Hash?
                  && u == Commit(s, now, k, Meaning(HSet(pairs), now, None, None).(ttl := ClearTtl)))
  {
    hide State.Valid, LRU.Touched, PutAll, Table.Clear;
    if s.Deadline(k) == None {
      NothingToClear(s, k);
    }
  }

  lemma {:induction false} NothingToClear(s: State, k: string)
    requires s.Valid() && s.Deadline(k) == None
    ensures s.ttl.Clear(k) == s.ttl
  {
  }
}
