/** Snapshots: when an unchanged mutation count means an unchanged store, and why restoring a dump
    gives the live data back. */
module Persistence {
  import opened Options
  import opened StoreSpec
  import opened StoreFacts
  import opened StoreRelations
  import opened Printing
  import opened Dumping
  import opened Compaction
  import opened Rebuild
  import Expiry

  // ----- The mutation count -----

  /** An operation that creates a key without counting as a mutation: a push that creates its list
      (or an HSET of nothing). */
  predicate Uncounted(s: State, now: int, op: Op) {
    && op.OnKey? && !Gate(s, now, op.key).Has(op.key)
    && (op.act.LPush? || op.act.RPush? || (op.act.HSet? && op.act.pairs == []))
  }

  predicate SameContents(a: State, b: State) {
    a.values == b.values && a.ttl.deadlines == b.ttl.deadlines
  }

  lemma {:induction false} MeaningDirty(act: Act, now: int, v: Option<Value>, d: Option<int>)
    ensures var e := Meaning(act, now, v, d);
            && (e.dirty == 0 && e.change.Leave? ==> e.ttl.KeepTtl?)
            && (e.dirty == 0 && e.change.Write? ==>
                  && e.ttl.KeepTtl?
                  && (act.LPush? || act.RPush? || (act.HSet? && act.pairs == []))
                  && (v.Some? ==> e.change.value == v.value))
            && (e.change.Write? && v.None? ==>
                  (act.LPush? || act.RPush? || (act.HSet? && act.pairs == []) ==> e.dirty == 0))
            && (act.LPush? || act.RPush? || act.HSet? ==> (v.None? ==> e.change.Write?))
  {
    hide Slice, Flat;
  }

  lemma {:induction false} RemoveDirty(s: State, k: string)
    ensures RemoveKey(s, k).dirty == s.dirty + if s.Has(k) then 1 else 0
    ensures !s.Has(k) ==> RemoveKey(s, k) == s
  {
  }

  lemma {:induction false} GateDirty(s: State, now: int, k: string)
    ensures Gate(s, now, k).dirty >= s.dirty
    ensures Gate(s, now, k).dirty == s.dirty ==> Gate(s, now, k) == s
  {
  }

  lemma {:induction false} PurgeDirty(s: State, now: int, ks: seq<string>)
    ensures Purge(s, now, ks).dirty >= s.dirty
    ensures Purge(s, now, ks).dirty == s.dirty ==> Purge(s, now, ks) == s
    decreases ks
  {
    if ks != [] {
      hide Gate;
      GateDirty(s, now, ks[0]);
      PurgeDirty(Gate(s, now, ks[0]), now, ks[1..]);
    }
  }

  lemma {:induction false} ReclaimDirty(s: State, ks: seq<string>)
    ensures Reclaim(s, ks).dirty >= s.dirty
    ensures Reclaim(s, ks).dirty == s.dirty ==> SameContents(Reclaim(s, ks), s)
    decreases ks
  {
    if ks != [] {
      hide RemoveKey;
      RemoveDirty(s, ks[0]);
      var r := RemoveKey(s, ks[0]);
      ReclaimDirty(r.(expired := r.expired + [ks[0]]), ks[1..]);
    }
  }

  lemma {:induction false} CommitDirty(s: State, now: int, k: string, e: Effect)
    requires s.Valid() && Sane(e, s.Has(k))
    requires e.dirty == 0 && e.change.Leave? ==> e.ttl.KeepTtl?
    requires e.dirty == 0 && e.change.Write? ==> e.ttl.KeepTtl?
    requires e.dirty == 0 && e.change.Write? && s.Has(k) ==> e.change.value == s.values.at[k]
    ensures Commit(s, now, k, e).dirty >= s.dirty + e.dirty
    ensures Commit(s, now, k, e).dirty == s.dirty ==>
              (SameContents(Commit(s, now, k, e), s) <==> !(e.change.Write? && !s.Has(k)))
  {
    hide State.Valid;
    if e.change.Write? {
      var r := Reserve(s, now, k);
      if Full(s, k) && s.recency != [] {
        LastHeld(s);
        RemoveDirty(s, s.recency[|s.recency| - 1]);
      } else if s.Has(k) && e.dirty == 0 {
        assert s.values.at[k := e.change.value] == s.values.at;
      }
      assert Commit(s, now, k, e).Has(k);
    }
  }

  /** The count never goes down, and a step that leaves it as it was leaves all values and deadlines
      as they were, if and only if it is no uncounted creation. */
  lemma {:induction false} StepDirty(s: State, now: int, op: Op)
    requires s.Valid()
    ensures Step(s, now, op).0.dirty >= s.dirty
    ensures Step(s, now, op).0.dirty == s.dirty ==>
              (SameContents(Step(s, now, op).0, s) <==> !Uncounted(s, now, op))
  {
    hide State.Valid, Gate, Meaning, Commit, Purge, Reclaim;
    match op
    case OnKey(k, act) =>
      var g := Gate(s, now, k);
      GateDirty(s, now, k);
      GateValid(s, now, k);
      EffectSane(g, now, k, act);
      MeaningDirty(act, now, g.Lookup(k), g.Deadline(k));
      CommitDirty(g, now, k, EffectOf(g, now, k, act));
    case Keys(_) =>
      PurgeDirty(s, now, s.values.keys);
    case Sweep(limit) =>
      CollectedDeadlines(s, now, limit);
      var (due, t) := Expiry.Collect(s.ttl, now, limit);
      ReclaimDirty(s.(ttl := t), due);
  }

  // ----- Saving while operations keep running -----

  /** The store and what its snapshot manager remembers. */
  datatype Keeper = Keeper(store: State, snapshot: Snapshot)

  datatype Event = Op(now: int, op: Op) | BeginSave(now: int) | FinishSave | FailSave

  function StepKeeper(k: Keeper, e: Event): Keeper {
    match e
    case Op(now, op) => k.(store := Step(k.store, now, op).0)
    case BeginSave(now) =>
      var (s, snapshot) := Taken(k.store, k.snapshot, now);
      Keeper(s, snapshot)
    case FinishSave => k.(snapshot := Finished(k.snapshot))
    case FailSave => k.(snapshot := Abandoned(k.snapshot))
  }

  function RunKeeper(k: Keeper, events: seq<Event>): Keeper {
    if events == [] then k else StepKeeper(RunKeeper(k, events[..|events| - 1]), events[|events| - 1])
  }

  /** The dump is the dump of this very store, taken when nothing in it had expired. */
  ghost predicate Describes(d: Dump, s: State) {
    exists now :: DumpedAt(d, s, now)
  }

  ghost predicate DumpedAt(d: Dump, s: State, now: int) {
    d == DumpOf(s, now) && forall k :: k in s.ttl.deadlines ==> s.ttl.deadlines[k] > now
  }

  lemma {:induction false} DescribesSame(d: Dump, a: State, b: State)
    requires Describes(d, a) && SameContents(a, b)
    ensures Describes(d, b)
  {
    var now :| DumpedAt(d, a, now);
    assert DumpOf(a, now) == DumpOf(b, now);
    assert DumpedAt(d, b, now);
  }

  ghost predicate Synced(k: Keeper) {
    var d := k.snapshot;
    && k.store.Valid()
    && d.lastSaved <= k.store.dirty
    && (d.disk.Some? && k.store.dirty == d.lastSaved ==> Describes(d.disk.value, k.store))
    && (d.saving.Some? ==>
          && d.saving.value.1 <= k.store.dirty
          && (k.store.dirty == d.saving.value.1 ==> Describes(d.saving.value.0, k.store)))
  }

  lemma {:induction false} OpSynced(k: Keeper, now: int, op: Op)
    requires Synced(k) && !Uncounted(k.store, now, op)
    ensures Synced(StepKeeper(k, Op(now, op)))
  {
    hide State.Valid, Step, Uncounted, SameContents, Describes;
    StepValid(k.store, now, op);
    StepDirty(k.store, now, op);
    var s, u := k.store, Step(k.store, now, op).0;
    if u.dirty == s.dirty {
      SameContentsSym(u, s);
      var d := k.snapshot;
      if d.disk.Some? && s.dirty == d.lastSaved { DescribesSame(d.disk.value, s, u); }
      if d.saving.Some? && s.dirty == d.saving.value.1 { DescribesSame(d.saving.value.0, s, u); }
    }
  }

  lemma {:induction false} SameContentsSym(a: State, b: State)
    requires SameContents(a, b)
    ensures SameContents(b, a)
  {
  }

  /** What is left after the purge that a save begins with can be dumped. */
  lemma {:induction false} CompactedDumped(s: State, now: int)
    requires s.Valid()
    ensures Describes(DumpOf(Compacted(s, now), now), Compacted(s, now))
  {
    hide State.Valid, Purge;
    PurgeListed(s, now);
    CompactedValid(s, now);
    var u := Compacted(s, now);
    forall k | k in u.ttl.deadlines ensures u.ttl.deadlines[k] > now {
      DeadlineAhead(Purge(s, now, s.values.keys), now, k);
    }
    assert DumpedAt(DumpOf(u, now), u, now);
  }

  /** Listing and reading every key, as a save or a rewrite does, moves the count if it reclaims one. */
  lemma {:induction false} CompactedSynced(k: Keeper, now: int)
    requires Synced(k)
    ensures Synced(k.(store := Compacted(k.store, now)))
    ensures Compacted(k.store, now).dirty >= k.store.dirty
  {
    hide State.Valid, Describes, Purge;
    CompactedValid(k.store, now);
    PurgeDirty(k.store, now, k.store.values.keys);
    var d, u := k.snapshot, Compacted(k.store, now);
    if u.dirty == k.store.dirty {
      if d.disk.Some? && k.store.dirty == d.lastSaved { DescribesSame(d.disk.value, k.store, u); }
      if d.saving.Some? && k.store.dirty == d.saving.value.1 { DescribesSame(d.saving.value.0, k.store, u); }
    }
  }

  lemma {:induction false} BeginSynced(k: Keeper, now: int)
    requires Synced(k)
    ensures Synced(StepKeeper(k, BeginSave(now)))
  {
    hide State.Valid, Describes, DumpOf, Compacted;
    if k.snapshot.saving.None? {
      CompactedSynced(k, now);
      CompactedDumped(k.store, now);
    }
  }

  /** No list is created along the run without being counted. */
  ghost predicate AllCounted(k: Keeper, events: seq<Event>) {
    events != [] ==>
      var n := |events| - 1;
      && AllCounted(k, events[..n])
      && (events[n].Op? ==> !Uncounted(RunKeeper(k, events[..n]).store, events[n].now, events[n].op))
  }

  /** Freshness: over any run of operations, with saves that begin, complete or fail in between,
      whenever the mutation count equals the one last saved, the file describes the live store. */
  lemma {:induction false} FileFresh(k: Keeper, events: seq<Event>)
    requires Synced(k) && AllCounted(k, events)
    ensures Synced(RunKeeper(k, events))
  {
    hide State.Valid, Synced, Uncounted;
    if events != [] {
      var n := |events| - 1;
      FileFresh(k, events[..n]);
      var before := RunKeeper(k, events[..n]);
      match events[n]
      case Op(now, op) => OpSynced(before, now, op);
      case BeginSave(now) => BeginSynced(before, now);
      case _ => EndSynced(before, events[n]);
    }
  }

  lemma {:induction false} EndSynced(k: Keeper, e: Event)
    requires Synced(k) && (e.FinishSave? || e.FailSave?)
    ensures Synced(StepKeeper(k, e))
  {
    hide State.Valid, Describes;
  }

  /** The exception is real: right after an uncounted creation, the count still equals the one last
      saved and the file no longer describes the store. */
  lemma {:induction false} MissedCreation(s: State, now: int, op: Op, d: Dump)
    requires s.Valid() && Uncounted(s, now, op) && op.key != PROTO && d == DumpOf(s, now)
    requires !s.Has(op.key) && !Full(s, op.key)
    ensures var u := Step(s, now, op).0;
            u.dirty == s.dirty && !Describes(d, u)
  {
    hide State.Valid, Commit, Meaning;
    var k, act := op.key, op.act;
    assert Gate(s, now, k) == s;
    var e := EffectOf(s, now, k, act);
    EffectSane(s, now, k, act);
    MeaningDirty(act, now, s.Lookup(k), s.Deadline(k));
    PlainCommit(s, now, k, e);
    var u := Step(s, now, op).0;
    forall at ensures !DumpedAt(d, u, at) {
      assert k in DumpOf(u, at) && k !in d;
    }
  }

  lemma {:induction false} PlainCommit(s: State, now: int, k: string, e: Effect)
    requires e.change.Write? && !Full(s, k)
    ensures Commit(s, now, k, e).dirty == s.dirty + e.dirty && Commit(s, now, k, e).Has(k)
  {
  }
}
