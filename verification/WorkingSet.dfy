/** The working-set guarantee of LRU eviction: a key goes only after at least `maxKeys` distinct
    other keys have been used since its own last use. */
module WorkingSet {
  import opened Options
  import opened Sequences
  import opened OrderedMap
  import opened Expiry
  import opened StoreSpec
  import opened StoreFacts
  import opened StoreRelations
  import LRU

  /** The key an operation uses: a hit that counts as a use, or an insertion. */
  function Used(s: State, now: int, op: Op): Option<string> {
    match op
    case OnKey(k, act) => if EffectOf(Gate(s, now, k), now, k, act).touch then Some(k) else None
    case _ => None
  }

  function Uses(s: State, ops: seq<Timed>): (r: seq<Option<string>>)
    ensures |r| == |ops|
  {
    if ops == [] then []
    else
      var before, last := ops[..|ops| - 1], ops[|ops| - 1];
      Uses(s, before) + [Used(Run(s, before), last.now, last.op)]
  }

  /** The distinct keys used after the last use of `k`. */
  function Since(uses: seq<Option<string>>, k: string): (r: set<string>)
    ensures k !in r
  {
    if uses == [] then {}
    else
      var last := uses[|uses| - 1];
      if last == Some(k) then {}
      else Since(uses[..|uses| - 1], k) + if last.Some? then {last.value} else {}
  }

  lemma {:induction false} SinceGrows(uses: seq<Option<string>>, u: Option<string>, k: string)
    ensures u != Some(k) ==> Since(uses + [u], k) == Since(uses, k) + if u.Some? then {u.value} else {}
  {
  }

  /** Every key of the order was used, and the keys before it have been used since. */
  ghost predicate Covered(r: seq<string>, uses: seq<Option<string>>) {
    r != [] ==>
      && Some(r[0]) in uses
      && (forall y :: y in r[1..] ==> r[0] in Since(uses, y))
      && Covered(r[1..], uses)
  }

  lemma {:induction false} CoveredKeep(r: seq<string>, uses: seq<Option<string>>, keep: set<string>)
    requires Covered(r, uses)
    ensures Covered(Keep(r, keep), uses)
  {
    if r != [] {
      CoveredKeep(r[1..], uses, keep);
      assert r[0] in keep ==> Keep(r, keep)[1..] == Keep(r[1..], keep);
    }
  }

  lemma {:induction false} CoveredWithout(r: seq<string>, uses: seq<Option<string>>, k: string)
    requires Covered(r, uses)
    ensures Covered(Without(r, k), uses)
  {
    if r != [] {
      CoveredWithout(r[1..], uses, k);
      assert r[0] != k ==> Without(r, k)[1..] == Without(r[1..], k);
    }
  }

  /** A use of a key outside `r` leaves `r` covered. */
  lemma {:induction false} CoveredLater(r: seq<string>, uses: seq<Option<string>>, u: Option<string>)
    requires Covered(r, uses)
    requires u.Some? ==> u.value !in r
    ensures Covered(r, uses + [u])
  {
    if r != [] {
      CoveredLater(r[1..], uses, u);
      forall y | y in r[1..] ensures r[0] in Since(uses + [u], y) {
        SinceGrows(uses, u, y);
      }
      assert Some(r[0]) in uses + [u];
    }
  }

  /** Using `k` moves it in front of keys that have all seen it used since. */
  lemma {:induction false} CoveredTouched(r: seq<string>, uses: seq<Option<string>>, k: string)
    requires Covered(r, uses)
    ensures Covered(LRU.Touched(r, k), uses + [Some(k)])
  {
    CoveredWithout(r, uses, k);
    CoveredLater(Without(r, k), uses, Some(k));
    var t := LRU.Touched(r, k);
    assert t[1..] == Without(r, k);
    forall y | y in t[1..] ensures k in Since(uses + [Some(k)], y) {
      SinceGrows(uses, Some(k), y);
    }
    assert (uses + [Some(k)])[|uses|] == Some(k);
  }

  /** The last key of a covered order has seen every other key of it used. */
  lemma {:induction false} CoveredLast(r: seq<string>, uses: seq<Option<string>>)
    requires Covered(r, uses) && r != []
    ensures forall x :: x in r && x != r[|r| - 1] ==> x in Since(uses, r[|r| - 1])
    ensures Some(r[|r| - 1]) in uses
  {
    if |r| > 1 {
      CoveredLast(r[1..], uses);
      var last := r[|r| - 1];
      assert r[1..][|r| - 2] == last && last in r[1..];
      assert forall x :: x in r ==> x == r[0] || x in r[1..];
    }
  }

  lemma {:induction false} CoveredStep(s: State, uses: seq<Option<string>>, now: int, op: Op)
    requires s.Valid() && Covered(s.recency, uses)
    ensures Covered(Step(s, now, op).0.recency, uses + [Used(s, now, op)])
  {
    hide State.Valid, Covered, Keep, LRU.Touched, Meaning;
    match op
    case OnKey(k, act) =>
      var g := Gate(s, now, k);
      GateRestricts(s, now, k);
      CoveredKeep(s.recency, uses, g.values.at.Keys);
      var e := EffectOf(g, now, k, act);
      EffectSane(g, now, k, act);
      CoveredCommit(g, uses, now, k, e);
    case Keys(_) =>
      PurgeRestricts(s, now, s.values.keys);
      CoveredKeep(s.recency, uses, Purge(s, now, s.values.keys).values.at.Keys);
      CoveredLater(Step(s, now, op).0.recency, uses, None);
    case Sweep(limit) =>
      CollectValid(s, now, limit);
      var (due, t) := Collect(s.ttl, now, limit);
      ReclaimRestricts(s.(ttl := t), due);
      CoveredKeep(s.recency, uses, Reclaim(s.(ttl := t), due).values.at.Keys);
      CoveredLater(Step(s, now, op).0.recency, uses, None);
  }

  lemma {:induction false} CoveredCommit(s: State, uses: seq<Option<string>>, now: int, k: string, e: Effect)
    requires s.Valid() && Covered(s.recency, uses) && Sane(e, s.Has(k))
    ensures Covered(Commit(s, now, k, e).recency, uses + [if e.touch then Some(k) else None])
  {
    hide State.Valid, Covered, Keep, LRU.Touched;
    match e.change
    case Drop =>
      RemoveParts(s, k);
      CoveredWithout(s.recency, uses, k);
      CoveredLater(RemoveKey(s, k).recency, uses, None);
    case Leave =>
      CoveredTouched(s.recency, uses, k);
      CoveredLater(s.recency, uses, None);
    case Write(v) =>
      var r := Reserve(s, now, k);
      ReserveRestricts(s, now, k);
      CoveredKeep(s.recency, uses, r.values.at.Keys);
      CoveredTouched(r.recency, uses, k);
  }

  lemma {:induction false} CoveredRun(c: nat, ops: seq<Timed>)
    requires c >= 1
    ensures Covered(Run(Empty(c), ops).recency, Uses(Empty(c), ops))
  {
    if ops != [] {
      var n := |ops| - 1;
      CoveredRun(c, ops[..n]);
      RunValid(Empty(c), ops[..n]);
      CoveredStep(Run(Empty(c), ops[..n]), Uses(Empty(c), ops[..n]), ops[n].now, ops[n].op);
    }
  }

  /** An eviction happens only when a new key is written into a full store, and its victim is the
      least recently used key, still live. */
  lemma {:induction false} EvictionCause(s: State, now: int, op: Op)
    requires s.Valid() && Step(s, now, op).0.evicted != s.evicted
    ensures op.OnKey?
    ensures var g := Gate(s, now, op.key);
            && Full(g, op.key) && g.recency != []
            && Used(s, now, op) == Some(op.key)
            && g.Live(g.recency[|g.recency| - 1], now)
            && Step(s, now, op).0.evicted == s.evicted + [g.recency[|g.recency| - 1]]
  {
    hide State.Valid, Commit, EffectOf, Gate, Purge, Reclaim;
    match op
    case OnKey(k, act) =>
      var g := Gate(s, now, k);
      GateValid(s, now, k);
      GateEvicts(s, now, k);
      EffectSane(g, now, k, act);
      CommitEvicts(g, now, k, EffectOf(g, now, k, act));
    case Keys(_) => PurgeEvicts(s, now, s.values.keys);
    case Sweep(limit) => ReclaimEvicts(s.(ttl := Collect(s.ttl, now, limit).1), Collect(s.ttl, now, limit).0);
  }

  lemma {:induction false} GateEvicts(s: State, now: int, k: string)
    ensures Gate(s, now, k).evicted == s.evicted
  {
  }

  /** Only making room evicts, and it takes the last key. */
  lemma {:induction false} CommitEvicts(g: State, now: int, k: string, e: Effect)
    requires g.Valid() && Sane(e, g.Has(k)) && Commit(g, now, k, e).evicted != g.evicted
    ensures Full(g, k) && g.recency != [] && e.touch
    ensures var v := g.recency[|g.recency| - 1];
            g.Live(v, now) && Commit(g, now, k, e).evicted == g.evicted + [v]
  {
    hide State.Valid;
    RecencySize(g);
    if g.recency != [] { LastHeld(g); }
  }

  lemma {:induction false} PurgeEvicts(s: State, now: int, ks: seq<string>)
    ensures Purge(s, now, ks).evicted == s.evicted
    decreases ks
  {
    if ks != [] { PurgeEvicts(Gate(s, now, ks[0]), now, ks[1..]); }
  }

  lemma {:induction false} ReclaimEvicts(s: State, ks: seq<string>)
    ensures Reclaim(s, ks).evicted == s.evicted
    decreases ks
  {
    if ks != [] { ReclaimEvicts(ReclaimOne(s, ks[0]), ks[1..]); }
  }

  /** The working-set guarantee: when the last operation of a run evicts `v`, then `v` was used
      before, and since its last use at least `c` distinct other keys have been used. */
  lemma {:induction false} WorkingSetGuarantee(c: nat, ops: seq<Timed>, v: string)
    requires c >= 1 && ops != []
    requires Run(Empty(c), ops).evicted == Run(Empty(c), ops[..|ops| - 1]).evicted + [v]
    ensures Some(v) in Uses(Empty(c), ops)
    ensures |Since(Uses(Empty(c), ops), v)| >= c
  {
    hide State.Valid, Keep, Step, Covered, Gate, Full;
    var n := |ops| - 1;
    var s, now, op := Run(Empty(c), ops[..n]), ops[n].now, ops[n].op;
    var uses := Uses(Empty(c), ops[..n]);
    RunValid(Empty(c), ops[..n]);
    CoveredRun(c, ops[..n]);
    EvictionCause(s, now, op);
    var g := Gate(s, now, op.key);
    GateRestricts(s, now, op.key);
    RestrictsAgrees(g, s);
    CoveredKeep(s.recency, uses, g.values.at.Keys);
    assert v == g.recency[|g.recency| - 1] by {
      assert (s.evicted + [v])[|s.evicted|] == v;
    }
    CoveredLast(g.recency, uses);
    FullOrder(g, op.key);
    SinceGrows(uses, Some(op.key), v);
    var others := g.values.at.Keys - {v} + {op.key};
    assert others <= Since(Uses(Empty(c), ops), v);
    SubsetSizeLe(others, Since(Uses(Empty(c), ops), v));
  }

  /** In a full store the order lists exactly the `capacity` held keys, none of them `k`. */
  lemma {:induction false} FullOrder(s: State, k: string)
    requires s.Valid() && Full(s, k)
    ensures |s.values.at.Keys| == s.capacity && k !in s.values.at.Keys
    ensures forall x :: x in s.values.at.Keys <==> x in s.recency
  {
    SizeIsKeys(s.values);
  }

  /** A write, whether or not it evicts, spares every key but the victim: its value, its deadline
      and its place among the others. */
  lemma {:induction false} WriteSparesOthers(s: State, now: int, k: string, e: Effect)
    requires s.Valid() && Sane(e, s.Has(k)) && e.change.Write?
    ensures var u := Commit(s, now, k, e);
            var spared := if Full(s, k) && s.recency != [] then s.values.at.Keys - {s.recency[|s.recency| - 1]}
                          else s.values.at.Keys;
            && u.values.at.Keys == spared + {k}
            && (forall x :: x in spared && x != k ==>
                  u.values.at[x] == s.values.at[x] && u.Deadline(x) == s.Deadline(x))
            && u.recency == [k] + Without(Keep(s.recency, spared), k)
  {
    hide State.Valid, Keep, Reserve, Commit;
    CommitAfterReserve(s, now, k, e);
    ReserveRestricts(s, now, k);
    RestrictsRefl(s);
    var r := Reserve(s, now, k);
    RestrictsAgrees(r, s);
    CommitInPlace(r, now, k, e);
    var u := Commit(s, now, k, e);
    forall x | x in r.values.at && x != k ensures u.Deadline(x) == s.Deadline(x) {
      assert r.Deadline(x) == s.Deadline(x);
    }
  }
}
