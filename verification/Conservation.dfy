/** Where keys come from and where they go: over any run, every key ever created is still held or
    left in exactly one reported way. */
module Conservation {
  import opened Options
  import opened Sequences
  import opened OrderedMap
  import opened StoreSpec
  import opened StoreFacts
  import opened StoreRelations
  import Expiry

  /** What one operation creates, deletes on request, and drops because it emptied a container. */
  datatype Flow = Flow(created: multiset<string>, deleted: multiset<string>, emptied: multiset<string>)

  const NO_FLOW := Flow(multiset{}, multiset{}, multiset{})

  function FlowOf(s: State, now: int, op: Op): Flow {
    match op
    case OnKey(k, act) =>
      var g := Gate(s, now, k);
      var change := EffectOf(g, now, k, act).change;
      if change.Write? && !g.Has(k) then NO_FLOW.(created := multiset{k})
      else if change.Drop? && act.Del? then NO_FLOW.(deleted := multiset{k})
      else if change.Drop? then NO_FLOW.(emptied := multiset{k})
      else NO_FLOW
    case _ => NO_FLOW
  }

  function RunFlow(s: State, ops: seq<Timed>): Flow {
    if ops == [] then NO_FLOW
    else
      var before, last := ops[..|ops| - 1], ops[|ops| - 1];
      var f, g := RunFlow(s, before), FlowOf(Run(s, before), last.now, last.op);
      Flow(f.created + g.created, f.deleted + g.deleted, f.emptied + g.emptied)
  }

  /** The keys a state holds and the keys it has reported to its listeners, each counted once per
      instance. */
  ghost function Accounted(s: State): multiset<string> {
    multiset(s.values.at.Keys) + multiset(s.expired) + multiset(s.evicted)
  }

  lemma {:induction false} RemoveAccounted(s: State, k: string)
    requires s.Valid() && s.Has(k)
    ensures multiset(RemoveKey(s, k).values.at.Keys) + multiset{k} == multiset(s.values.at.Keys)
    ensures RemoveKey(s, k).expired == s.expired && RemoveKey(s, k).evicted == s.evicted
  {
  }

  lemma {:induction false} LogAppend(log: seq<string>, k: string)
    ensures multiset(log + [k]) == multiset(log) + multiset{k}
  {
  }

  lemma {:induction false} GateAccounted(s: State, now: int, k: string)
    requires s.Valid()
    ensures Accounted(Gate(s, now, k)) == Accounted(s)
  {
  }

  lemma {:induction false} ReserveAccounted(s: State, now: int, k: string)
    requires s.Valid()
    ensures Accounted(Reserve(s, now, k)) == Accounted(s)
  {
  }

  lemma {:induction false} PurgeAccounted(s: State, now: int, ks: seq<string>)
    requires s.Valid()
    ensures Accounted(Purge(s, now, ks)) == Accounted(s)
    decreases ks
  {
    if ks != [] {
      hide State.Valid, Gate;
      GateAccounted(s, now, ks[0]);
      GateValid(s, now, ks[0]);
      PurgeAccounted(Gate(s, now, ks[0]), now, ks[1..]);
    }
  }

  lemma {:induction false} ReclaimOneAccounted(s: State, k: string)
    requires s.Valid() && s.Has(k)
    ensures ReclaimOne(s, k).Valid() && Accounted(ReclaimOne(s, k)) == Accounted(s)
    ensures forall x :: x != k && s.Has(x) ==> ReclaimOne(s, k).Has(x)
  {
    hide State.Valid, RemoveKey;
    ReclaimOneValid(s, k);
    RemoveAccounted(s, k);
    LogAppend(s.expired, k);
    RemoveRestricts(s, k);
  }

  lemma {:induction false} ReclaimHead(s: State, ks: seq<string>)
    requires ks != []
    ensures Reclaim(s, ks) == Reclaim(ReclaimOne(s, ks[0]), ks[1..])
  {
  }

  /** Each reclaimed key is reported once: the sample lists no key twice. */
  lemma {:induction false} ReclaimAccounted(s: State, ks: seq<string>)
    requires s.Valid() && NoDup(ks)
    requires forall k :: k in ks ==> s.Has(k)
    ensures Accounted(Reclaim(s, ks)) == Accounted(s)
    decreases ks
  {
    if ks != [] {
      hide State.Valid, ReclaimOne, Accounted, Keep;
      var r := ReclaimOne(s, ks[0]);
      ReclaimOneAccounted(s, ks[0]);
      NoDupTail(ks);
      assert forall k :: k in ks[1..] ==> k in ks && k != ks[0];
      ReclaimAccounted(r, ks[1..]);
      ReclaimHead(s, ks);
    }
  }

  lemma {:induction false} CommitAccounted(s: State, now: int, k: string, e: Effect)
    requires s.Valid() && Sane(e, s.Has(k))
    ensures Accounted(Commit(s, now, k, e)) + (if e.change.Drop? then multiset{k} else multiset{})
            == Accounted(s) + if e.change.Write? && !s.Has(k) then multiset{k} else multiset{}
  {
    hide State.Valid, Reserve, RemoveKey, Sane;
    match e.change
    case Leave =>
      assert Commit(s, now, k, e).values == s.values;
    case Drop =>
      DropCommits(s, now, k, e);
      RemoveAccounted(s, k);
    case Write(v) =>
      hide Commit, Accounted;
      var r := Reserve(s, now, k);
      ReserveAccounted(s, now, k);
      CommitAfterReserve(s, now, k, e);
      ReserveValid(s, now, k);
      CommitInPlace(r, now, k, e);
      PutAccounted(r, Commit(s, now, k, e), k);
  }

  /** Adding a key to the held ones counts it once if it is new. */
  lemma {:induction false} PutAccounted(s: State, t: State, k: string)
    requires t.values.at.Keys == s.values.at.Keys + {k} && t.expired == s.expired && t.evicted == s.evicted
    ensures Accounted(t) == Accounted(s) + if s.Has(k) then multiset{} else multiset{k}
  {
  }

  lemma {:induction false} StepAccounted(s: State, now: int, op: Op)
    requires s.Valid()
    ensures var f := FlowOf(s, now, op);
            Accounted(Step(s, now, op).0) + f.deleted + f.emptied == Accounted(s) + f.created
  {
    hide State.Valid, Accounted, Commit, Gate, Purge, Reclaim;
    match op
    case OnKey(k, act) =>
      var g := Gate(s, now, k);
      GateAccounted(s, now, k);
      GateValid(s, now, k);
      EffectSane(g, now, k, act);
      CommitAccounted(g, now, k, EffectOf(g, now, k, act));
    case Keys(_) =>
      PurgeAccounted(s, now, s.values.keys);
    case Sweep(limit) =>
      CollectValid(s, now, limit);
      SampleHeld(s, now, limit);
      var (due, t) := Expiry.Collect(s.ttl, now, limit);
      ReclaimAccounted(s.(ttl := t), due);
      SameAccount(s, s.(ttl := t));
  }

  lemma {:induction false} SameAccount(s: State, t: State)
    requires s.values == t.values && s.expired == t.expired && s.evicted == t.evicted
    ensures Accounted(s) == Accounted(t)
  {
  }

  lemma {:induction false} SampleHeld(s: State, now: int, limit: int)
    requires s.Valid()
    ensures NoDup(Expiry.Collect(s.ttl, now, limit).0)
    ensures forall k :: k in Expiry.Collect(s.ttl, now, limit).0 ==> s.Has(k)
  {
    Expiry.CollectSound(s.ttl, now, limit);
    forall k | k in Expiry.Collect(s.ttl, now, limit).0 ensures s.Has(k) {
      assert k in s.ttl.Due(now);
    }
  }

  lemma {:induction false} Balance(held: multiset<string>, later: multiset<string>, f: Flow, g: Flow)
    requires f.created == held + f.deleted + f.emptied
    requires later + g.deleted + g.emptied == held + g.created
    ensures f.created + g.created == later + (f.deleted + g.deleted) + (f.emptied + g.emptied)
  {
    var left := f.created + g.created;
    var right := later + (f.deleted + g.deleted) + (f.emptied + g.emptied);
    forall x ensures left[x] == right[x] {
      assert f.created[x] == (held + f.deleted + f.emptied)[x];
      assert (later + g.deleted + g.emptied)[x] == (held + g.created)[x];
    }
  }

  /** Conservation, key by key: over any run, the creations of each key are its presence now and
      its reports to the two listeners, plus its deletions and its drops as an emptied container. */
  lemma {:induction false} RunAccounted(c: nat, ops: seq<Timed>)
    requires c >= 1
    ensures var f := RunFlow(Empty(c), ops);
            f.created == Accounted(Run(Empty(c), ops)) + f.deleted + f.emptied
  {
    if ops != [] {
      hide Accounted, FlowOf, Step;
      var n := |ops| - 1;
      RunAccounted(c, ops[..n]);
      RunValid(Empty(c), ops[..n]);
      var s := Run(Empty(c), ops[..n]);
      StepAccounted(s, ops[n].now, ops[n].op);
      Balance(Accounted(s), Accounted(Run(Empty(c), ops)), RunFlow(Empty(c), ops[..n]),
              FlowOf(s, ops[n].now, ops[n].op));
    }
  }

  /** The same law as a count, with the eviction counter for the eviction listener. */
  lemma {:induction false} RunCounts(c: nat, ops: seq<Timed>)
    requires c >= 1
    ensures var s := Run(Empty(c), ops);
            var f := RunFlow(Empty(c), ops);
            && |f.created| == |s.values.keys| + |f.deleted| + |f.emptied| + |s.expired| + s.evictions
            && |s.evicted| == s.evictions
  {
    var s := Run(Empty(c), ops);
    RunAccounted(c, ops);
    RunValid(Empty(c), ops);
    SizeIsKeys(s.values);
    assert |multiset(s.values.at.Keys)| == |s.values.at.Keys|;
  }

  // ----- No empty containers -----

  predicate Nonempty(v: Value) {
    match v
    case Str(_) => true
    case List(l) => l != []
    case Hash(h) => h.keys != []
  }

  ghost predicate NoneEmpty(s: State) {
    forall k :: k in s.values.at ==> Nonempty(s.values.at[k])
  }

  /** Pushes and HSETs carry at least one item: what the parser guarantees. */
  predicate Carries(op: Op) {
    op.OnKey? ==>
      match op.act
      case LPush(xs) => xs != []
      case RPush(xs) => xs != []
      case HSet(pairs) => pairs != []
      case _ => true
  }

  lemma {:induction false} PutAllNonempty(h: OMap<string>, pairs: seq<(string, string)>)
    requires h.Valid()
    ensures pairs != [] || h.keys != [] ==> PutAll(h, pairs).keys != []
    decreases pairs
  {
    if pairs != [] {
      PutValid(h, pairs[0].0, pairs[0].1);
      PutAllNonempty(h.Put(pairs[0].0, pairs[0].1), pairs[1..]);
    }
  }

  lemma {:induction false} WriteNonempty(op: Op, now: int, v: Option<Value>, d: Option<int>)
    requires op.OnKey? && Carries(op)
    requires v.Some? ==> Nonempty(v.value) && WellFormed(v.value)
    ensures Meaning(op.act, now, v, d).change.Write? ==> Nonempty(Meaning(op.act, now, v, d).change.value)
  {
    match op.act
    case HSet(pairs) =>
      PutAllNonempty(OMap([], map[]), pairs);
      if v.Some? && v.value.Hash? { PutAllNonempty(v.value.fields, pairs); }
    case _ =>
  }

  lemma {:induction false} StepNonempty(s: State, now: int, op: Op)
    requires s.Valid() && NoneEmpty(s) && Carries(op)
    ensures NoneEmpty(Step(s, now, op).0)
  {
    hide Keep, Meaning, Gate, Purge, Reclaim;
    match op
    case OnKey(k, act) =>
      var g := Gate(s, now, k);
      GateRestricts(s, now, k);
      var e := EffectOf(g, now, k, act);
      EffectSane(g, now, k, act);
      WriteNonempty(op, now, g.Lookup(k), g.Deadline(k));
      hide State.Valid, Commit;
      CommitNonempty(g, now, k, e);
    case Keys(_) =>
      PurgeRestricts(s, now, s.values.keys);
    case Sweep(limit) =>
      CollectValid(s, now, limit);
      var (due, t) := Expiry.Collect(s.ttl, now, limit);
      ReclaimRestricts(s.(ttl := t), due);
  }

  lemma {:induction false} CommitNonempty(s: State, now: int, k: string, e: Effect)
    requires s.Valid() && NoneEmpty(s) && Sane(e, s.Has(k))
    requires e.change.Write? ==> Nonempty(e.change.value)
    ensures NoneEmpty(Commit(s, now, k, e))
  {
  }

  /** No list and no hash in a reachable store is ever empty. */
  lemma {:induction false} RunNonempty(c: nat, ops: seq<Timed>)
    requires c >= 1
    requires forall i :: 0 <= i < |ops| ==> Carries(ops[i].op)
    ensures NoneEmpty(Run(Empty(c), ops))
  {
    if ops != [] {
      var n := |ops| - 1;
      RunNonempty(c, ops[..n]);
      RunValid(Empty(c), ops[..n]);
      StepNonempty(Run(Empty(c), ops[..n]), ops[n].now, ops[n].op);
    }
  }
}
