/** The lockstep invariant over every operation and every run. */
module StoreFacts {
  import opened Options
  import opened Sequences
  import opened OrderedMap
  import opened Expiry
  import opened StoreSpec
  import LRU

  lemma {:induction false} RemoveKeyValid(s: State, k: string)
    requires s.Valid()
    ensures RemoveKey(s, k).Valid()
    ensures RemoveKey(s, k).values.at == s.values.at - {k}
    ensures RemoveKey(s, k).ttl.deadlines == s.ttl.deadlines - {k}
    ensures |RemoveKey(s, k).values.keys| == |s.values.keys| - if s.Has(k) then 1 else 0
  {
    if s.Has(k) {
      RemoveValid(s.values, k);
      WithoutNoDup(s.recency, k);
      ClearValid(s.ttl, k);
    }
  }

  lemma {:induction false} GateValid(s: State, now: int, k: string)
    requires s.Valid()
    ensures Gate(s, now, k).Valid()
    ensures !Gate(s, now, k).ttl.IsExpired(k, now)
  {
    RemoveKeyValid(s, k);
  }

  /** There are as many recency entries as keys, so a full store has a victim. */
  lemma {:induction false} RecencySize(s: State)
    requires s.Valid()
    ensures |s.recency| == |s.values.keys|
  {
    NoDupSize(s.recency, s.values.at.Keys);
    SizeIsKeys(s.values);
  }

  lemma {:induction false} ReserveValid(s: State, now: int, k: string)
    requires s.Valid()
    ensures Reserve(s, now, k).Valid()
    ensures s.Has(k) ==> Reserve(s, now, k) == s
    ensures !s.Has(k) ==> !Reserve(s, now, k).Has(k) && |Reserve(s, now, k).values.keys| < s.capacity
    ensures forall x :: Reserve(s, now, k).Has(x) ==> s.Has(x)
  {
    RecencySize(s);
    if Full(s, k) {
      RemoveKeyValid(s, s.recency[|s.recency| - 1]);
    }
  }

  /** An effect never touches or expires a key that it does not leave present. */
  ghost predicate Sane(e: Effect, present: bool) {
    && (e.change.Leave? && !present ==> !e.touch && e.ttl.KeepTtl?)
    && (e.change.Drop? ==> present && !e.touch && e.dirty == 0)
    && (e.change.Write? ==> e.touch && WellFormed(e.change.value))
  }

  lemma {:induction false} PutAllValid(h: OMap<string>, pairs: seq<(string, string)>)
    requires h.Valid()
    ensures PutAll(h, pairs).Valid()
    decreases pairs
  {
    if pairs != [] {
      PutValid(h, pairs[0].0, pairs[0].1);
      PutAllValid(h.Put(pairs[0].0, pairs[0].1), pairs[1..]);
    }
  }

  lemma {:induction false} RemoveAllValid(h: OMap<string>, fields: seq<string>)
    requires h.Valid()
    ensures RemoveAll(h, fields).Valid()
    decreases fields
  {
    if fields != [] {
      RemoveValid(h, fields[0]);
      RemoveAllValid(h.Remove(fields[0]), fields[1..]);
    }
  }

  lemma {:induction false} MeaningSane(act: Act, now: int, v: Option<Value>, d: Option<int>)
    requires v.Some? ==> WellFormed(v.value)
    ensures Sane(Meaning(act, now, v, d), v.Some?)
  {
    match act
    case HSet(pairs) =>
      PutAllValid(OMap([], map[]), pairs);
      if v.Some? && v.value.Hash? { PutAllValid(v.value.fields, pairs); }
    case HDel(fs) =>
      if v.Some? && v.value.Hash? { RemoveAllValid(v.value.fields, fs); }
    case _ =>
  }

  lemma {:induction false} ChangeTtlValid(t: Table, k: string, c: TtlChange)
    requires t.Valid()
    ensures ChangeTtl(t, k, c).Valid()
    ensures ChangeTtl(t, k, c).deadlines ==
            match c
            case KeepTtl => t.deadlines
            case SetTtl(at) => t.deadlines[k := at]
            case ClearTtl => t.deadlines - {k}
  {
    ClearValid(t, k);
  }

  lemma {:induction false} SettleValid(s: State, k: string, e: Effect)
    requires s.capacity >= 1 && s.values.Valid() && s.Has(k) && |s.values.keys| <= s.capacity
    requires NoDup(s.recency) && e.touch
    requires forall x :: x in s.recency || x == k <==> x in s.values.at
    requires s.ttl.Valid() && s.ttl.deadlines.Keys <= s.values.at.Keys && s.evictions == |s.evicted|
    requires forall x :: x in s.values.at ==> WellFormed(s.values.at[x])
    ensures Settle(s, k, e).Valid()
  {
    ChangeTtlValid(s.ttl, k, e.ttl);
    LRU.TouchedNoDup(s.recency, k);
  }

  lemma {:induction false} CommitValid(s: State, now: int, k: string, e: Effect)
    requires s.Valid() && Sane(e, s.Has(k))
    ensures Commit(s, now, k, e).Valid()
  {
    match e.change
    case Leave =>
      ChangeTtlValid(s.ttl, k, e.ttl);
      LRU.TouchedNoDup(s.recency, k);
    case Drop =>
      RemoveKeyValid(s, k);
    case Write(v) =>
      ReserveValid(s, now, k);
      var r := Reserve(s, now, k);
      PutValid(r.values, k, v);
      SettleValid(r.(values := r.values.Put(k, v)), k, e);
  }

  lemma {:induction false} PurgeValid(s: State, now: int, ks: seq<string>)
    requires s.Valid()
    ensures Purge(s, now, ks).Valid()
    decreases ks
  {
    if ks != [] {
      GateValid(s, now, ks[0]);
      PurgeValid(Gate(s, now, ks[0]), now, ks[1..]);
    }
  }

  lemma {:induction false} ReclaimValid(s: State, ks: seq<string>)
    requires s.Valid()
    ensures Reclaim(s, ks).Valid()
    decreases ks
  {
    if ks != [] {
      RemoveKeyValid(s, ks[0]);
      var r := RemoveKey(s, ks[0]);
      ReclaimValid(r.(expired := r.expired + [ks[0]]), ks[1..]);
    }
  }

  lemma {:induction false} EffectSane(s: State, now: int, k: string, act: Act)
    requires s.Valid()
    ensures Sane(EffectOf(s, now, k, act), s.Has(k))
  {
    MeaningSane(act, now, s.Lookup(k), s.Deadline(k));
  }

  /** The effect of HSET on a hash with the given fields. */
  function FillEffect(h: OMap<string>, pairs: seq<(string, string)>): Effect {
    Effect(Write(Hash(PutAll(h, pairs))), true, KeepTtl, if pairs == [] then 0 else 1,
           Num(|PutAll(h, pairs).keys| - |h.keys|))
  }

  /** SET after the gate: room is made, the value and its deadline are written, one use, one mutation. */
  lemma {:induction false} SetCommit(s: State, now: int, k: string, value: string, ttl: Option<int>)
    ensures var r := Reserve(Gate(s, now, k), now, k);
            KeyStep(s, now, k, Act.Set(value, ttl)).0 ==
            r.(values := r.values.Put(k, Str(value)),
               recency := LRU.Touched(r.recency, k),
               ttl := if ttl.Some? then r.ttl.Set(k, now + ttl.value * 1000) else r.ttl.Clear(k),
               dirty := r.dirty + 1)
  {
    hide Gate, Reserve, OMap.Put, LRU.Touched, Table.Set, Table.Clear, ListMeaning, HashMeaning;
  }

  lemma {:induction false} HSetCommit(s: State, now: int, k: string, pairs: seq<(string, string)>)
    ensures var e := EffectOf(s, now, k, HSet(pairs));
            if s.Has(k) && !s.values.at[k].Hash? then Commit(s, now, k, e) == s && e.outcome == WrongType
            else
              var h := if s.Has(k) then s.values.at[k].fields else OMap([], map[]);
              var r := Reserve(s, now, k);
              var filled := r.(values := r.values.Put(k, Hash(PutAll(h, pairs))));
              && Commit(s, now, k, e) == Settle(filled, k, FillEffect(h, pairs))
              && e.outcome == FillEffect(h, pairs).outcome
  {
    hide PutAll, OMap.Put, Reserve, LRU.Touched, Table.Set, Table.Clear, ListMeaning;
  }

  lemma {:induction false} PushCommit(s: State, now: int, k: string, act: Act, xs: seq<string>)
    requires act == LPush(xs) || act == RPush(xs)
    ensures var e := EffectOf(s, now, k, act);
            if !s.Has(k) then e == Meaning(act, now, None, None) && e.outcome == Num(|xs|)
            else if !s.values.at[k].List? then Commit(s, now, k, e) == s && e.outcome == WrongType
            else
              var l := s.values.at[k].elems;
              var pushed := if act.LPush? then Reverse(xs) + l else l + xs;
              && e.outcome == Num(|l| + |xs|)
              && Commit(s, now, k, e) == s.(values := s.values.Put(k, List(pushed)),
                                            recency := LRU.Touched(s.recency, k), dirty := s.dirty + 1)
  {
    hide Reverse, LRU.Touched, OMap.Put;
  }

  lemma {:induction false} ExpireCommit(s: State, now: int, k: string, seconds: int)
    ensures var e := EffectOf(s, now, k, Act.Expire(seconds));
            if !s.Has(k) then Commit(s, now, k, e) == s && e.outcome == Flag(false)
            else
              && e.outcome == Flag(true)
              && Commit(s, now, k, e) == s.(ttl := s.ttl.Set(k, now + seconds * 1000),
                                            recency := LRU.Touched(s.recency, k), dirty := s.dirty + 1)
  {
  }

  lemma {:induction false} HDelCommit(s: State, now: int, k: string, fs: seq<string>)
    ensures var e := EffectOf(s, now, k, HDel(fs));
            if !s.Has(k) then Commit(s, now, k, e) == s && e.outcome == Num(0)
            else if !s.values.at[k].Hash? then Commit(s, now, k, e) == s && e.outcome == WrongType
            else
              var h := s.values.at[k].fields;
              var after := RemoveAll(h, fs);
              var n := |h.keys| - |after.keys|;
              if after.keys == [] then Commit(s, now, k, e) == RemoveKey(s, k) && e.outcome == Num(n)
              else if n > 0 then
                && e.outcome == Num(n)
                && Commit(s, now, k, e) == s.(values := s.values.Put(k, Hash(after)),
                                              recency := LRU.Touched(s.recency, k), dirty := s.dirty + 1)
              else Commit(s, now, k, e) == s && e.outcome == Num(0)
  {
  }

  lemma {:induction false} CommitCapacity(s: State, now: int, k: string, e: Effect)
    ensures Commit(s, now, k, e).capacity == s.capacity
  {
  }

  lemma {:induction false} KeyStepValid(s: State, now: int, k: string, act: Act)
    requires s.Valid()
    ensures KeyStep(s, now, k, act).0.Valid()
    ensures KeyStep(s, now, k, act).0.capacity == s.capacity
  {
    GateValid(s, now, k);
    var g := Gate(s, now, k);
    var e := EffectOf(g, now, k, act);
    EffectSane(g, now, k, act);
    CommitValid(g, now, k, e);
    CommitCapacity(g, now, k, e);
  }

  lemma {:induction false} CollectValid(s: State, now: int, limit: int)
    requires s.Valid()
    ensures s.(ttl := Collect(s.ttl, now, limit).1).Valid()
  {
  }

  /** Sampling changes no deadline. */
  lemma {:induction false} CollectedDeadlines(s: State, now: int, limit: int)
    requires s.Valid()
    ensures Collect(s.ttl, now, limit).1.deadlines == s.ttl.deadlines
  {
    CollectSound(s.ttl, now, limit);
  }

  lemma {:induction false} Parts(s: State)
    requires s.Valid()
    ensures s.values.Valid() && |s.values.keys| <= s.capacity && s.capacity >= 1
  {
  }

  lemma {:induction false} HashFields(s: State, k: string)
    requires s.Valid() && s.Has(k) && s.values.at[k].Hash?
    ensures s.values.at[k].fields.Valid()
  {
  }

  lemma {:induction false} StepValid(s: State, now: int, op: Op)
    requires s.Valid()
    ensures Step(s, now, op).0.Valid()
    ensures Step(s, now, op).0.capacity == s.capacity
  {
    match op
    case OnKey(k, act) =>
      KeyStepValid(s, now, k, act);
    case Keys(_) =>
      PurgeValid(s, now, s.values.keys);
      PurgeCapacity(s, now, s.values.keys);
    case Sweep(limit) =>
      CollectValid(s, now, limit);
      var (due, t) := Collect(s.ttl, now, limit);
      ReclaimValid(s.(ttl := t), due);
      ReclaimCapacity(s.(ttl := t), due);
  }

  lemma {:induction false} PurgeCapacity(s: State, now: int, ks: seq<string>)
    ensures Purge(s, now, ks).capacity == s.capacity
    decreases ks
  {
    if ks != [] {
      PurgeCapacity(Gate(s, now, ks[0]), now, ks[1..]);
    }
  }

  lemma {:induction false} ReclaimCapacity(s: State, ks: seq<string>)
    ensures Reclaim(s, ks).capacity == s.capacity
    decreases ks
  {
    if ks != [] {
      var r := RemoveKey(s, ks[0]);
      ReclaimCapacity(r.(expired := r.expired + [ks[0]]), ks[1..]);
    }
  }

  lemma {:induction false} PutAllAppend(h: OMap<string>, ps: seq<(string, string)>, p: (string, string))
    ensures PutAll(h, ps + [p]) == PutAll(h, ps).Put(p.0, p.1)
    decreases ps
  {
    if ps == [] {
      assert ps + [p] == [p];
      assert PutAll(h.Put(p.0, p.1), []) == h.Put(p.0, p.1);
    } else {
      PutAllAppend(h.Put(ps[0].0, ps[0].1), ps[1..], p);
      TailOfAppend(ps, [p]);
    }
  }

  lemma {:induction false} RemoveAllAppend(h: OMap<string>, fs: seq<string>, f: string)
    ensures RemoveAll(h, fs + [f]) == RemoveAll(h, fs).Remove(f)
    decreases fs
  {
    if fs == [] {
      assert fs + [f] == [f];
      assert RemoveAll(h.Remove(f), []) == h.Remove(f);
    } else {
      RemoveAllAppend(h.Remove(fs[0]), fs[1..], f);
      TailOfAppend(fs, [f]);
    }
  }

  lemma {:induction false} PurgeAppend(s: State, now: int, ks: seq<string>, k: string)
    ensures Purge(s, now, ks + [k]) == Gate(Purge(s, now, ks), now, k)
    decreases ks
  {
    if ks == [] {
      assert ks + [k] == [k];
      assert Purge(Gate(s, now, k), now, []) == Gate(s, now, k);
    } else {
      PurgeAppend(Gate(s, now, ks[0]), now, ks[1..], k);
      TailOfAppend(ks, [k]);
    }
  }

  lemma {:induction false} MatchingAppend(pattern: string, ks: seq<string>, k: string)
    ensures Matching(pattern, ks + [k]) == Matching(pattern, ks) + if Glob(pattern, k) then [k] else []
  {
    if ks == [] {
      assert ks + [k] == [k];
      assert Matching(pattern, []) == [];
    } else {
      hide Glob;
      MatchingAppend(pattern, ks[1..], k);
      TailOfAppend(ks, [k]);
      Associative(if Glob(pattern, ks[0]) then [ks[0]] else [], Matching(pattern, ks[1..]),
                  if Glob(pattern, k) then [k] else []);
    }
  }

  lemma {:induction false} NothingMatches(pattern: string)
    ensures Matching(pattern, []) == []
  {
  }

  /** The pattern `*` matches every key. */
  lemma {:induction false} GlobAll(key: string)
    ensures Glob("*", key)
  {
    assert "*"[1..] == "";
    if key != [] {
      GlobAll(key[1..]);
    }
  }

  /** A pattern without `*` matches itself only. */
  lemma {:induction false} GlobLiteral(pattern: string, key: string)
    requires '*' !in pattern
    ensures Glob(pattern, key) <==> key == pattern
    decreases |pattern|
  {
    if pattern != [] && key != [] && key[0] == pattern[0] {
      GlobLiteral(pattern[1..], key[1..]);
      assert key == [key[0]] + key[1..] && pattern == [pattern[0]] + pattern[1..];
    }
  }

  /** A leading `*` stands for any characters, none included. */
  lemma {:induction false} GlobStar(rest: string, key: string)
    ensures Glob("*" + rest, key) <==> exists i :: 0 <= i <= |key| && Glob(rest, key[i..])
    decreases |key|
  {
    var pattern := "*" + rest;
    assert pattern[0] == '*' && pattern[1..] == rest;
    assert key[0..] == key;
    if key != [] {
      GlobStar(rest, key[1..]);
      forall i | 0 <= i < |key| ensures key[1..][i..] == key[i + 1..] {
      }
      if Glob(pattern, key[1..]) {
        var i :| 0 <= i <= |key[1..]| && Glob(rest, key[1..][i..]);
        assert Glob(rest, key[i + 1..]);
      }
      if i :| 0 < i <= |key| && Glob(rest, key[i..]) {
        assert Glob(rest, key[1..][i - 1..]);
      }
    }
  }

  /** A leading literal stands for itself. */
  lemma {:induction false} GlobPrefix(literal: string, rest: string, key: string)
    requires '*' !in literal
    ensures Glob(literal + rest, key) <==> literal <= key && Glob(rest, key[|literal|..])
    decreases |literal|
  {
    var pattern := literal + rest;
    if literal == [] {
      assert pattern == rest && key[0..] == key;
    } else {
      assert pattern[0] == literal[0] && pattern[1..] == literal[1..] + rest;
      if key != [] && key[0] == literal[0] {
        GlobPrefix(literal[1..], rest, key[1..]);
        assert literal <= key <==> literal[1..] <= key[1..];
        assert literal <= key ==> key[1..][|literal| - 1..] == key[|literal|..];
      }
    }
  }

  lemma {:induction false} MatchingAll(ks: seq<string>)
    ensures Matching("*", ks) == ks
  {
    if ks != [] {
      GlobAll(ks[0]);
      MatchingAll(ks[1..]);
    }
  }

  /** Listing all keys visits the insertion order once: what the gate lets through is listed, and
      the keys still to come stay in place behind it. */
  lemma {:induction false} ScanStep(s: State, now: int, order: seq<string>, i: nat, v: State, matched: seq<string>)
    requires i < |order| && v == Purge(s, now, order[..i]) && v.Valid()
    requires v.values.keys == matched + order[i..]
    ensures Purge(s, now, order[..i + 1]) == Gate(v, now, order[i])
    ensures v.Has(order[i])
    ensures Gate(v, now, order[i]).values.keys
            == (if Gate(v, now, order[i]).Has(order[i]) then matched + [order[i]] else matched) + order[i + 1..]
  {
    hide State.Valid, Gate, Purge, Without, NoDup;
    var m, k := |matched|, order[i];
    assert order[..i + 1] == order[..i] + [k];
    PurgeAppend(s, now, order[..i], k);
    Listed(v);
    assert v.values.keys[m] == k;
    WithoutAt(v.values.keys, m);
    assert v.values.keys[m + 1..] == order[i + 1..];
    assert v.values.keys[..m] == matched;
    assert matched + order[i..] == (matched + [k]) + order[i + 1..];
    GateKeys(v, now, k);
  }

  /** The insertion order lists exactly the held keys, each once. */
  lemma {:induction false} Listed(s: State)
    requires s.Valid()
    ensures NoDup(s.values.keys)
    ensures forall k :: k in s.values.keys <==> s.Has(k)
  {
  }

  lemma {:induction false} TimedHeld(s: State, k: string)
    requires s.Valid() && k in s.ttl.deadlines
    ensures k in s.values.at
  {
  }

  /** A key that is not held appears nowhere. */
  lemma {:induction false} Missing(s: State, k: string)
    requires s.Valid() && !s.Has(k)
    ensures k !in s.ttl.deadlines && k !in s.recency && k !in s.values.keys
    ensures s.Deadline(k) == None && s.Lookup(k) == None
  {
  }

  lemma {:induction false} GateLive(s: State, now: int, k: string)
    requires s.Valid()
    ensures Gate(s, now, k).Has(k) <==> s.Live(k, now)
    ensures s.Live(k, now) ==> Gate(s, now, k) == s
  {
  }

  lemma {:induction false} GateKeys(s: State, now: int, k: string)
    requires s.Valid()
    ensures Gate(s, now, k).values.keys ==
            if Gate(s, now, k).Has(k) then s.values.keys else Without(s.values.keys, k)
  {
  }

  function ReclaimOne(s: State, k: string): State {
    var r := RemoveKey(s, k);
    r.(expired := r.expired + [k])
  }

  lemma {:induction false} ReclaimOneValid(s: State, k: string)
    requires s.Valid()
    ensures ReclaimOne(s, k).Valid()
  {
    RemoveKeyValid(s, k);
  }

  lemma {:induction false} ReclaimAppend(s: State, ks: seq<string>, k: string)
    ensures Reclaim(s, ks + [k]) == ReclaimOne(Reclaim(s, ks), k)
    decreases ks
  {
    if ks == [] {
      assert ks + [k] == [k];
      assert Reclaim(ReclaimOne(s, k), []) == ReclaimOne(s, k);
    } else {
      ReclaimAppend(ReclaimOne(s, ks[0]), ks[1..], k);
      TailOfAppend(ks, [k]);
    }
  }

  lemma {:induction false} FlatAppend(fields: seq<string>, f: string, at: map<string, string>)
    requires f in at
    ensures Flat(fields + [f], at) == Flat(fields, at) + [f, at[f]]
  {
    if fields == [] {
      assert fields + [f] == [f];
      assert Flat([], at) == [];
    } else {
      FlatAppend(fields[1..], f, at);
      TailOfAppend(fields, [f]);
      Associative(if fields[0] in at then [fields[0], at[fields[0]]] else [], Flat(fields[1..], at), [f, at[f]]);
    }
  }

  /** Lockstep: in every reachable state the three structures agree, within capacity. */
  lemma {:induction false} RunValid(s: State, ops: seq<Timed>)
    requires s.Valid()
    ensures Run(s, ops).Valid() && Run(s, ops).capacity == s.capacity
  {
    if ops != [] {
      RunValid(s, ops[..|ops| - 1]);
      var last := ops[|ops| - 1];
      StepValid(Run(s, ops[..|ops| - 1]), last.now, last.op);
    }
  }
}
