/** Active expiry: sweeps change no reply as long as nothing has to be evicted, and they catch up
    with every expired key within a bounded number of ticks. */
module Sweeps {
  import opened Options
  import opened Sequences
  import opened OrderedMap
  import opened StoreSpec
  import opened StoreFacts
  import opened StoreRelations
  import Expiry

  /** `b` is `a` without some of the keys that have expired by `now`; recency is free. */
  ghost predicate Pruned(b: State, a: State, now: int) {
    && a.Valid() && b.Valid()
    && a.capacity == b.capacity
    && Agrees(b, a)
    && b.values.keys == Keep(a.values.keys, b.values.at.Keys)
    && forall k :: k in a.values.at && k !in b.values.at ==> a.ttl.IsExpired(k, now)
  }

  lemma {:induction false} PrunedLater(b: State, a: State, now: int, later: int)
    requires Pruned(b, a, now) && now <= later
    ensures Pruned(b, a, later)
  {
  }

  /** Removing expired keys from the swept store keeps it pruned. */
  lemma {:induction false} PruneMore(c: State, b: State, a: State, now: int)
    requires Pruned(b, a, now) && c.Valid() && Restricts(c, b)
    requires forall k :: k in b.values.at && k !in c.values.at ==> b.ttl.IsExpired(k, now)
    ensures Pruned(c, a, now)
  {
    hide State.Valid, Keep;
    KeepKeep(a.values.keys, b.values.at.Keys, c.values.at.Keys);
    assert b.values.at.Keys * c.values.at.Keys == c.values.at.Keys;
    forall k | k in a.values.at && k !in c.values.at ensures a.ttl.IsExpired(k, now) {
      if k in b.values.at { assert b.Deadline(k) == a.Deadline(k); }
    }
  }

  /** Removing from the unswept store keys that the swept one lacks. */
  lemma {:induction false} PruneBase(b: State, a: State, c: State, now: int)
    requires Pruned(b, a, now) && c.Valid() && Restricts(c, a)
    requires b.values.at.Keys <= c.values.at.Keys
    ensures Pruned(b, c, now)
  {
    hide State.Valid, Keep;
    KeepKeep(a.values.keys, c.values.at.Keys, b.values.at.Keys);
    assert c.values.at.Keys * b.values.at.Keys == b.values.at.Keys;
    forall k | k in c.values.at && k !in b.values.at ensures c.ttl.IsExpired(k, now) {
      assert c.Deadline(k) == a.Deadline(k);
    }
  }

  lemma {:induction false} SweepPruned(b: State, a: State, now: int, limit: int)
    requires Pruned(b, a, now)
    ensures Pruned(Step(b, now, Sweep(limit)).0, a, now)
  {
    hide State.Valid, Keep;
    Expiry.CollectSound(b.ttl, now, limit) by { Ttl(b); }
    CollectValid(b, now, limit);
    var (due, t) := Expiry.Collect(b.ttl, now, limit);
    var moved := b.(ttl := t);
    ReclaimRestricts(moved, due);
    assert Pruned(moved, a, now) by {
      assert forall k :: b.Deadline(k) == moved.Deadline(k);
    }
    forall k | k in due ensures moved.ttl.IsExpired(k, now) {
      assert k in b.ttl.Due(now);
    }
    PruneMore(Reclaim(moved, due), moved, a, now);
  }

  lemma {:induction false} Ttl(s: State)
    requires s.Valid()
    ensures s.ttl.Valid() && s.ttl.deadlines.Keys <= s.values.at.Keys
  {
  }

  /** The gate shows the same key, value and deadline on both sides. */
  lemma {:induction false} GatePruned(b: State, a: State, now: int, k: string)
    requires Pruned(b, a, now)
    ensures var g, h := Gate(b, now, k), Gate(a, now, k);
            && Pruned(g, h, now)
            && g.Lookup(k) == h.Lookup(k) && g.Deadline(k) == h.Deadline(k)
  {
    hide State.Valid, Keep, Gate;
    var g, h := Gate(b, now, k), Gate(a, now, k);
    GateRestricts(b, now, k);
    GateRestricts(a, now, k);
    if k in b.values.at { assert b.Deadline(k) == a.Deadline(k); }
    PruneMore(g, b, a, now);
    PruneBase(g, a, h, now);
    GateValid(a, now, k);
    if k !in g.values.at {
      Missing(g, k);
      if k !in h.values.at { Missing(h, k); }
    }
  }

  /** Restricting both to the keys without one keeps them in agreement. */
  lemma {:induction false} DropAgrees(b: State, a: State, c: State, d: State)
    requires Agrees(b, a) && Agrees(c, b) && Agrees(d, a) && c.values.at.Keys <= d.values.at.Keys
    ensures Agrees(c, d)
  {
    forall x | x in c.values.at ensures c.Deadline(x) == d.Deadline(x) && c.values.at[x] == d.values.at[x] {
      assert c.Deadline(x) == b.Deadline(x) && b.Deadline(x) == a.Deadline(x);
    }
  }

  /** Removing the same key from both. */
  lemma {:induction false} DropPruned(b: State, a: State, now: int, k: string)
    requires Pruned(b, a, now) && b.Has(k) && a.Has(k)
    ensures Pruned(RemoveKey(b, k), RemoveKey(a, k), now)
  {
    hide State.Valid, Keep, RemoveKey;
    RemoveRestricts(a, k);
    RemoveRestricts(b, k);
    RemoveParts(a, k);
    RemoveParts(b, k);
    var c, d := RemoveKey(b, k), RemoveKey(a, k);
    KeepKeep(a.values.keys, b.values.at.Keys, c.values.at.Keys);
    assert b.values.at.Keys * c.values.at.Keys == c.values.at.Keys;
    KeepKeep(a.values.keys, d.values.at.Keys, c.values.at.Keys);
    assert d.values.at.Keys * c.values.at.Keys == c.values.at.Keys;
    DropAgrees(b, a, c, d);
  }

  /** The same in-place effect on both. */
  lemma {:induction false} InPlacePruned(b: State, a: State, now: int, k: string, e: Effect)
    requires Pruned(b, a, now) && Sane(e, a.Has(k)) && !e.change.Drop?
    requires a.Has(k) <==> b.Has(k)
    requires !Full(a, k) && !Full(b, k)
    ensures Pruned(Commit(b, now, k, e), Commit(a, now, k, e), now)
  {
    hide State.Valid, Keep, Commit, Sane;
    CommitValid(a, now, k, e);
    CommitValid(b, now, k, e);
    CommitInPlace(a, now, k, e);
    CommitInPlace(b, now, k, e);
    var c, d := Commit(b, now, k, e), Commit(a, now, k, e);
    if !b.Has(k) { Missing(a, k); Missing(b, k); }
    forall x | x in c.values.at ensures c.Deadline(x) == d.Deadline(x) && c.values.at[x] == d.values.at[x] {
      if x in b.values.at { assert b.Deadline(x) == a.Deadline(x); }
    }
    forall x | x in d.values.at && x !in c.values.at ensures d.ttl.IsExpired(x, now) {
      assert x != k || !e.change.Write?;
      assert a.ttl.IsExpired(x, now);
      if x == k { SaneLeave(e); }
    }
    if e.change.Write? {
      PutPruned(b, a, k, e.change.value);
    }
    assert Agrees(c, d) && c.values.keys == Keep(d.values.keys, c.values.at.Keys);
  }

  /** The same write in both keeps the remaining keys in order. */
  lemma {:induction false} PutPruned(b: State, a: State, k: string, v: Value)
    requires a.Valid() && b.values.keys == Keep(a.values.keys, b.values.at.Keys)
    requires a.Has(k) <==> b.Has(k)
    ensures b.values.Put(k, v).keys == Keep(a.values.Put(k, v).keys, b.values.Put(k, v).at.Keys)
  {
    hide State.Valid, Keep;
    var keys := b.values.Put(k, v).at.Keys;
    if a.Has(k) {
      assert keys == b.values.at.Keys;
    } else {
      Listed(a);
      KeepAppend(a.values.keys, [k], keys);
      KeepAgree(a.values.keys, b.values.at.Keys, keys);
      KeepOne(k, keys);
    }
  }

  lemma {:induction false} SaneLeave(e: Effect)
    requires Sane(e, false) && e.change.Leave?
    ensures e.ttl.KeepTtl?
  {
  }

  lemma {:induction false} KeepOne(k: string, keep: set<string>)
    requires k in keep
    ensures Keep([k], keep) == [k]
  {
  }

  /** No room has to be made: whatever the operation writes has its place already. */
  predicate Roomy(s: State, now: int, op: Op) {
    match op
    case OnKey(k, act) => EffectOf(Gate(s, now, k), now, k, act).change.Write? ==> !Full(Gate(s, now, k), k)
    case _ => true
  }

  lemma {:induction false} KeyStepPruned(b: State, a: State, now: int, k: string, act: Act)
    requires Pruned(b, a, now) && Roomy(a, now, OnKey(k, act))
    ensures Pruned(KeyStep(b, now, k, act).0, KeyStep(a, now, k, act).0, now)
    ensures KeyStep(b, now, k, act).1 == KeyStep(a, now, k, act).1
  {
    hide State.Valid, Keep, Gate, Meaning, Commit, Sane;
    var g, h := Gate(b, now, k), Gate(a, now, k);
    GatePruned(b, a, now, k);
    SameEffect(g, h, now, k, act);
    var e := EffectOf(h, now, k, act);
    EffectSane(h, now, k, act);
    if e.change.Drop? {
      DropCommits(h, now, k, e);
      DropCommits(g, now, k, e);
      DropPruned(g, h, now, k);
    } else if e.change.Write? {
      InPlacePruned(g, h, now, k, e);
    } else {
      LeavePruned(g, h, now, k, e);
    }
  }

  /** An effect that writes nothing never needs room. */
  lemma {:induction false} LeavePruned(b: State, a: State, now: int, k: string, e: Effect)
    requires Pruned(b, a, now) && Sane(e, a.Has(k)) && e.change.Leave?
    requires a.Has(k) <==> b.Has(k)
    ensures Pruned(Commit(b, now, k, e), Commit(a, now, k, e), now)
  {
    hide State.Valid, Keep, Commit, Pruned, Sane;
    if a.Has(k) {
      InPlacePruned(b, a, now, k, e);
    } else {
      LeaveCounts(b, now, k, e);
      LeaveCounts(a, now, k, e);
      CountsApart(b, a, now, b.dirty + e.dirty, a.dirty + e.dirty);
    }
  }

  lemma {:induction false} LeaveCounts(s: State, now: int, k: string, e: Effect)
    requires Sane(e, false) && e.change.Leave?
    ensures Commit(s, now, k, e) == s.(dirty := s.dirty + e.dirty)
  {
  }

  /** The mutation counts play no part. */
  lemma {:induction false} CountsApart(b: State, a: State, now: int, m: nat, n: nat)
    requires Pruned(b, a, now)
    ensures Pruned(b.(dirty := m), a.(dirty := n), now)
  {
    hide Keep;
  }

  lemma {:induction false} KeysPruned(b: State, a: State, now: int, pattern: string)
    requires Pruned(b, a, now)
    ensures Pruned(Step(b, now, Keys(pattern)).0, Step(a, now, Keys(pattern)).0, now)
    ensures Step(b, now, Keys(pattern)).1 == Step(a, now, Keys(pattern)).1
  {
    hide State.Valid, Keep, Purge;
    var c, d := Purge(b, now, b.values.keys), Purge(a, now, a.values.keys);
    PurgeRestricts(b, now, b.values.keys);
    PurgeRestricts(a, now, a.values.keys);
    Listed(a);
    Listed(b);
    forall k ensures c.Has(k) <==> d.Has(k) {
      if b.Has(k) { assert b.Deadline(k) == a.Deadline(k); }
    }
    PruneMore(c, b, a, now);
    PruneBase(c, a, d, now);
    Listed(d);
    KeepAll(d.values.keys, c.values.at.Keys);
  }

  lemma {:induction false} StepPruned(b: State, a: State, now: int, op: Op)
    requires Pruned(b, a, now) && Roomy(a, now, op) && !op.Sweep?
    ensures Pruned(Step(b, now, op).0, Step(a, now, op).0, now)
    ensures Step(b, now, op).1 == Step(a, now, op).1
  {
    match op
    case OnKey(k, act) => KeyStepPruned(b, a, now, k, act);
    case Keys(pattern) => KeysPruned(b, a, now, pattern);
  }

  /** The run without its sweeps. */
  function Plain(ops: seq<Timed>): (r: seq<Timed>)
    ensures forall i :: 0 <= i < |r| ==> r[i] in ops
  {
    if ops == [] then []
    else
      var last := ops[|ops| - 1];
      Plain(ops[..|ops| - 1]) + if last.op.Sweep? then [] else [last]
  }

  /** What the clients of a run see: the outcomes of everything but the sweeps. */
  function Replies(s: State, ops: seq<Timed>): seq<Outcome> {
    if ops == [] then []
    else
      var before, last := ops[..|ops| - 1], ops[|ops| - 1];
      Replies(s, before) + if last.op.Sweep? then [] else [Step(Run(s, before), last.now, last.op).1]
  }

  /** Nothing in the run ever inserts a new key into a full store. */
  predicate NeverFull(s: State, ops: seq<Timed>) {
    ops != [] ==>
      var before, last := ops[..|ops| - 1], ops[|ops| - 1];
      NeverFull(s, before) && Roomy(Run(s, before), last.now, last.op)
  }

  ghost predicate ClockRuns(ops: seq<Timed>) {
    forall i, j :: 0 <= i < j < |ops| ==> ops[i].now <= ops[j].now
  }

  lemma {:induction false} RunPruned(s: State, ops: seq<Timed>, t: int)
    requires s.Valid() && ClockRuns(ops) && NeverFull(s, Plain(ops))
    requires forall i :: 0 <= i < |ops| ==> ops[i].now <= t
    ensures Pruned(Run(s, ops), Run(s, Plain(ops)), t)
    ensures Replies(s, ops) == Outcomes(s, Plain(ops))
  {
    if ops == [] {
      KeepAll(s.values.keys, s.values.at.Keys);
    } else {
      hide State.Valid, Keep, Step, Roomy, Pruned;
      var n := |ops| - 1;
      var before, last := ops[..n], ops[n];
      var a, b := Run(s, Plain(before)), Run(s, before);
      if last.op.Sweep? {
        assert Plain(ops) == Plain(before);
        RunPruned(s, before, last.now);
        SweepPruned(b, a, last.now, last.op.limit);
      } else {
        var p := Plain(ops);
        assert p == Plain(before) + [last];
        assert p[..|p| - 1] == Plain(before);
        RunPruned(s, before, last.now);
        StepPruned(b, a, last.now, last.op);
      }
      PrunedLater(Run(s, ops), Run(s, Plain(ops)), last.now, t);
    }
  }

  /** Sweeps are invisible: with a clock that never runs backwards, inserting sweeps of any size
      anywhere into a run that never inserts a new key at capacity changes no reply. */
  lemma {:induction false} SweepsInvisible(c: nat, ops: seq<Timed>)
    requires c >= 1 && ClockRuns(ops) && NeverFull(Empty(c), Plain(ops))
    ensures Replies(Empty(c), ops) == Outcomes(Empty(c), Plain(ops))
  {
    RunPruned(Empty(c), ops, if ops == [] then 0 else ops[|ops| - 1].now);
  }

  /** What EXISTS says of `victim` once SET has written `k`. */
  function SeenAfterSet(s: State, now: int, k: string, value: string, ttl: Option<int>, victim: string): Outcome {
    Step(Step(s, now, OnKey(k, Set(value, ttl))).0, now, OnKey(victim, Exists)).1
  }

  /** The capacity condition is needed, and no more than it: when a new key comes to a full store
      whose least recently used key is live, that key is seen to be gone; with a sweep before it,
      it is seen to be there if and only if the sweep samples some key that has expired. */
  lemma {:induction false} SweepSavesVictim(
      s: State, now: int, limit: int, k: string, value: string, ttl: Option<int>, victim: string)
    requires s.Valid() && Full(s, k) && s.recency != []
    requires victim == s.recency[|s.recency| - 1] && !s.ttl.IsExpired(victim, now)
    ensures SeenAfterSet(s, now, k, value, ttl, victim) == Flag(false)
    ensures SeenAfterSet(Step(s, now, Sweep(limit)).0, now, k, value, ttl, victim)
         == Flag(Expiry.Collect(s.ttl, now, limit).0 != [])
  {
    hide SeenAfterSet, Reclaim, Expiry.Collect, State.Valid, Expiry.Table.Valid, Expiry.Table.Due, Keep;
    VictimGone(s, now, k, value, ttl, victim);
    LastHeld(s);
    var (due, t) := Expiry.Collect(s.ttl, now, limit);
    var moved := s.(ttl := t);
    SampledKeys(s, now, limit);
    CollectValid(s, now, limit);
    ReclaimRestricts(moved, due);
    if due == [] {
      NothingReclaimed(moved);
      VictimGone(moved, now, k, value, ttl, victim);
    } else {
      assert due[0] in due;
      Fewer(moved, Reclaim(moved, due), due[0]);
      VictimSpared(Reclaim(moved, due), now, k, value, ttl, victim);
    }
  }

  lemma {:induction false} NothingReclaimed(s: State)
    ensures Reclaim(s, []) == s
  {
  }

  /** Sampled keys are held and have expired; sampling moves no deadline. */
  lemma {:induction false} SampledKeys(s: State, now: int, limit: int)
    requires s.Valid()
    ensures forall x :: x in Expiry.Collect(s.ttl, now, limit).0 ==> s.Has(x) && s.ttl.IsExpired(x, now)
    ensures Expiry.Collect(s.ttl, now, limit).1.deadlines == s.ttl.deadlines
  {
    Expiry.CollectSound(s.ttl, now, limit);
  }

  lemma {:induction false} Fewer(s: State, u: State, x: string)
    requires s.Valid() && u.Valid() && u.values.at.Keys <= s.values.at.Keys && s.Has(x) && !u.Has(x)
    ensures |u.values.keys| < |s.values.keys|
  {
    SizeIsKeys(s.values);
    SizeIsKeys(u.values);
    Expiry.SubsetSize(u.values.at.Keys, s.values.at.Keys);
  }

  lemma {:induction false} VictimGone(
      s: State, now: int, k: string, value: string, ttl: Option<int>, victim: string)
    requires s.Valid() && Full(s, k) && s.recency != []
    requires victim == s.recency[|s.recency| - 1]
    ensures SeenAfterSet(s, now, k, value, ttl, victim) == Flag(false)
  {
    hide State.Valid, Keep, Commit, Reserve, Sane, RemoveKey;
    var e := EffectOf(s, now, k, Set(value, ttl));
    EffectSane(s, now, k, Set(value, ttl));
    ReserveRestricts(s, now, k);
    CommitAfterReserve(s, now, k, e);
    CommitInPlace(Reserve(s, now, k), now, k, e);
    LastHeld(s);
    assert !Commit(s, now, k, e).Has(victim);
    assert Commit(s, now, k, e) == Step(s, now, OnKey(k, Set(value, ttl))).0;
  }

  lemma {:induction false} VictimSpared(
      s: State, now: int, k: string, value: string, ttl: Option<int>, victim: string)
    requires s.Valid() && !s.Has(k) && !Full(s, k)
    requires s.Has(victim) && !s.ttl.IsExpired(victim, now)
    ensures SeenAfterSet(s, now, k, value, ttl, victim) == Flag(true)
  {
    hide State.Valid, Keep, Commit, Reserve, Sane, RemoveKey;
    var e := EffectOf(s, now, k, Set(value, ttl));
    EffectSane(s, now, k, Set(value, ttl));
    CommitInPlace(s, now, k, e);
    assert Commit(s, now, k, e) == Step(s, now, OnKey(k, Set(value, ttl))).0;
    assert Commit(s, now, k, e).Has(victim);
    assert Commit(s, now, k, e).Deadline(victim) == s.Deadline(victim);
  }

  // ----- Liveness -----

  lemma {:induction false} ReclaimTtl(s: State, ks: seq<string>)
    requires s.Valid()
    ensures Reclaim(s, ks).ttl == Expiry.ClearAll(s.ttl, ks)
    decreases ks
  {
    if ks != [] {
      ReclaimOneValid(s, ks[0]);
      ReclaimTtl(ReclaimOne(s, ks[0]), ks[1..]);
    }
  }

  lemma {:induction false} SweepTtl(s: State, now: int, limit: int)
    requires s.Valid()
    ensures Step(s, now, Sweep(limit)).0.ttl == Expiry.Sweep(s.ttl, now, limit)
  {
    CollectValid(s, now, limit);
    var (due, t) := Expiry.Collect(s.ttl, now, limit);
    ReclaimTtl(s.(ttl := t), due);
  }

  /** `m` sweeps in a row at one instant. */
  function Ticks(now: int, limit: int, m: nat): (r: seq<Timed>)
    ensures |r| == m
  {
    if m == 0 then [] else Ticks(now, limit, m - 1) + [At(now, Sweep(limit))]
  }

  lemma {:induction false} TicksTtl(s: State, now: int, limit: int, m: nat)
    requires s.Valid()
    ensures Run(s, Ticks(now, limit, m)).ttl == Expiry.Sweeps(s.ttl, now, limit, m)
    ensures Run(s, Ticks(now, limit, m)).Valid()
  {
    if m == 0 {
    } else {
      var before := Ticks(now, limit, m - 1);
      TicksTtl(s, now, limit, m - 1);
      assert Ticks(now, limit, m)[..m - 1] == before;
      SweepTtl(Run(s, before), now, limit);
      StepValid(Run(s, before), now, Sweep(limit));
      Expiry.SweepsSplit(s.ttl, now, limit, m - 1, 1);
      assert Expiry.Sweeps(Expiry.Sweep(Run(s, before).ttl, now, limit), now, limit, 0)
          == Expiry.Sweep(Run(s, before).ttl, now, limit);
    }
  }

  /** Sweep liveness in the store: with the clock fixed, n keys that carry a deadline, E of them
      expired, and samples of `limit`, no expired key is left after E * ceil(n / limit) sweeps. */
  lemma {:induction false} SweepsCatchUp(s: State, now: int, limit: int, k: string)
    requires s.Valid() && limit > 0
    ensures var m := |s.ttl.Due(now)| * Expiry.Rounds(|s.ttl.order|, limit);
            !Run(s, Ticks(now, limit, m)).ttl.IsExpired(k, now)
  {
    var m := |s.ttl.Due(now)| * Expiry.Rounds(|s.ttl.order|, limit);
    TicksTtl(s, now, limit, m);
    Expiry.SweepLiveness(s.ttl, now, limit);
    var t := Run(s, Ticks(now, limit, m)).ttl;
    assert k !in t.Due(now);
  }
}
