/** The append-only file as a record of the run: replaying it gives the data back. */
module LogReplay {
  import opened Options
  import opened Sequences
  import opened OrderedMap
  import opened Text
  import opened StoreSpec
  import opened StoreFacts
  import opened StoreRelations
  import opened CommandParser
  import opened Execution
  import Conservation
  import LRU

  /** The same values in the same insertion order, and the same keys carrying a deadline. */
  ghost predicate SameData(a: State, b: State) {
    && a.Valid() && b.Valid()
    && a.capacity == b.capacity
    && a.values == b.values
    && a.ttl.deadlines.Keys == b.ttl.deadlines.Keys
  }

  /** No deadline has passed at `t`. */
  predicate FreshAt(s: State, t: int) {
    forall k :: k in s.ttl.deadlines ==> s.ttl.deadlines[k] > t
  }

  // ----- Replay -----

  /** Recovery handles each line of the file as a command. */
  function ReplayLine(s: State, t: int, line: string): State {
    var parsed := Parse(line);
    if parsed.Parsed? then Execute(s, t, parsed.command).state else s
  }

  function Replay(s: State, t: int, lines: seq<string>): State {
    if lines == [] then s
    else ReplayLine(Replay(s, t, lines[..|lines| - 1]), t, lines[|lines| - 1])
  }

  lemma {:induction false} ReplaySnoc(s: State, t: int, lines: seq<string>, line: string)
    ensures Replay(s, t, lines + [line]) == ReplayLine(Replay(s, t, lines), t, line)
  {
  }

  lemma {:induction false} ReplayAppend(s: State, t: int, a: seq<string>, b: seq<string>)
    ensures Replay(s, t, a + b) == Replay(Replay(s, t, a), t, b)
    decreases b
  {
    hide ReplayLine;
    if b == [] {
      assert a + b == a;
      assert Replay(Replay(s, t, a), t, []) == Replay(s, t, a);
    } else {
      var n := |b| - 1;
      ReplayAppend(s, t, a, b[..n]);
      assert a + b == (a + b[..n]) + [b[n]];
      ReplaySnoc(s, t, a + b[..n], b[n]);
    }
  }

  // ----- One step -----

  /** The same act on the same data at two times: the same change, the same kind of deadline. */
  ghost predicate SameShape(e: Effect, f: Effect, t: int) {
    && e.change == f.change
    && (e.ttl.KeepTtl? <==> f.ttl.KeepTtl?)
    && (e.ttl.ClearTtl? <==> f.ttl.ClearTtl?)
    && (f.ttl.SetTtl? ==> f.ttl.at > t)
  }

  lemma {:induction false} ShapeEqual(a: State, b: State, now: int, t: int, k: string, act: Act)
    requires a.Lookup(k) == b.Lookup(k) && (a.Deadline(k).Some? <==> b.Deadline(k).Some?)
    requires WellFormedAct(act) || act.TypeOf?
    ensures SameShape(EffectOf(a, now, k, act), EffectOf(b, t, k, act), t)
  {
    hide IsToken;
  }

  /** Effects of the same shape keep the data equal, when no room has to be made. */
  lemma {:induction false} CommitSame(a: State, b: State, now: int, t: int, k: string, e: Effect, f: Effect)
    requires SameData(a, b) && FreshAt(b, t)
    requires SameShape(e, f, t) && Sane(e, a.Has(k)) && Sane(f, b.Has(k))
    requires e.change.Write? ==> !Full(a, k)
    ensures SameData(Commit(a, now, k, e), Commit(b, t, k, f))
    ensures FreshAt(Commit(b, t, k, f), t)
  {
    hide State.Valid, Commit, Sane;
    CommitValid(a, now, k, e);
    CommitValid(b, t, k, f);
    CommitCapacity(a, now, k, e);
    CommitCapacity(b, t, k, f);
    if e.change.Drop? {
      DropCommits(a, now, k, e);
      DropCommits(b, t, k, f);
      RemoveKeyValid(a, k);
      RemoveKeyValid(b, k);
      SameRemoval(a, b, k);
    } else if e.change.Write? || a.Has(k) {
      CommitInPlace(a, now, k, e);
      CommitInPlace(b, t, k, f);
    } else {
      LeaveMissing(a, now, k, e);
      LeaveMissing(b, t, k, f);
    }
  }

  lemma {:induction false} SameRemoval(a: State, b: State, k: string)
    requires a.values == b.values
    ensures RemoveKey(a, k).values == RemoveKey(b, k).values
  {
  }

  lemma {:induction false} LeaveMissing(s: State, now: int, k: string, e: Effect)
    requires Sane(e, false) && e.change.Leave?
    ensures Commit(s, now, k, e).values == s.values && Commit(s, now, k, e).ttl == s.ttl
  {
  }

  /** HSET that only overwrites fields, and changes one: the case in which a change is not logged. */
  predicate SilentOverwrite(s: State, c: Command) {
    && c.OnData? && c.act.HSet? && s.Has(c.key) && s.values.at[c.key].Hash?
    && var h := s.values.at[c.key].fields;
       PutAll(h, c.act.pairs).keys == h.keys && PutAll(h, c.act.pairs) != h
  }

  /** The acts that write a key that is missing. */
  predicate Creates(act: Act) {
    act.Set? || act.LPush? || act.RPush? || act.HSet?
  }

  /** When the replica `b` that replays the logged lines keeps up with the live store `a`. Expiries
      and evictions are not logged: on an expired key only a SET agrees, and only if the key is the
      last one in insertion order; a write that needs room agrees if the replica picks the same
      victim; listing the keys agrees if no held key has expired. And an HSET that only overwrites
      is not logged either. */
  predicate Keeps(a: State, b: State, now: int, c: Command) {
    match c
    case OnData(k, act) =>
      if a.Has(k) && a.ttl.IsExpired(k, now) then act.Set? && LRU.Last(a.values.keys) == Some(k)
      else if Full(a, k) && Creates(act) then LRU.Last(a.recency) == LRU.Last(b.recency)
      else !SilentOverwrite(a, c)
    case ListKeys(_) => FreshAt(a, now)
    case _ => true
  }

  /** What an unlogged act leaves: everything, unless it is a silent overwrite. */
  lemma {:induction false} UnloggedLeaves(s: State, now: int, k: string, act: Act)
    requires s.Valid() && Conservation.NoneEmpty(s) && WellFormedAct(act)
    requires !Logs(act, EffectOf(s, now, k, act).outcome)
    ensures var e := EffectOf(s, now, k, act);
            && e.ttl.KeepTtl?
            && (e.change.Leave? || (act.HSet? && s.Has(k) && s.values.at[k].Hash?
                                    && e.change == Write(Hash(PutAll(s.values.at[k].fields, act.pairs)))
                                    && |PutAll(s.values.at[k].fields, act.pairs).keys| == |s.values.at[k].fields.keys|))
  {
    hide IsToken, Slice, Flat;
    match act
    case HSet(pairs) =>
      hide State.Valid;
      if !s.Has(k) {
        Conservation.PutAllNonempty(OMap([], map[]), pairs);
      } else if s.values.at[k].Hash? {
        HashFields(s, k);
        PutAllGrows(s.values.at[k].fields, pairs);
      }
    case HDel(fs) =>
      hide State.Valid;
      if s.Has(k) && s.values.at[k].Hash? {
        HashFields(s, k);
        RemoveAllSame(s.values.at[k].fields, fs);
      }
    case _ =>
  }

  lemma {:induction false} PutAllGrows(h: OMap<string>, pairs: seq<(string, string)>)
    requires h.Valid()
    ensures |h.keys| <= |PutAll(h, pairs).keys|
    ensures |PutAll(h, pairs).keys| == |h.keys| ==> PutAll(h, pairs).keys == h.keys
    decreases pairs
  {
    if pairs != [] {
      PutValid(h, pairs[0].0, pairs[0].1);
      PutAllGrows(h.Put(pairs[0].0, pairs[0].1), pairs[1..]);
    }
  }

  /** Deleting no field leaves the fields in place. */
  lemma {:induction false} RemoveAllSame(h: OMap<string>, fs: seq<string>)
    requires h.Valid()
    ensures |RemoveAll(h, fs).keys| <= |h.keys|
    ensures |RemoveAll(h, fs).keys| == |h.keys| ==> RemoveAll(h, fs).keys == h.keys
    decreases fs
  {
    if fs != [] {
      RemoveValid(h, fs[0]);
      RemoveAllSame(h.Remove(fs[0]), fs[1..]);
    }
  }

  /** A write of the value that is already there changes nothing; any other write changes the data. */
  lemma {:induction false} OverwriteSame(s: State, now: int, k: string, e: Effect)
    requires s.Valid() && s.Has(k) && Sane(e, true) && e.change.Write? && e.ttl.KeepTtl?
    ensures Commit(s, now, k, e).ttl == s.ttl
    ensures Commit(s, now, k, e).values == s.values <==> e.change.value == s.values.at[k]
  {
  }

  lemma {:induction false} UnexpiredGate(s: State, now: int, k: string)
    requires !(s.Has(k) && s.ttl.IsExpired(k, now))
    ensures Gate(s, now, k) == s
  {
  }

  lemma {:induction false} FreshGate(s: State, t: int, k: string)
    requires FreshAt(s, t)
    ensures Gate(s, t, k) == s
  {
  }

  lemma {:induction false} LeaveData(s: State, now: int, k: string, e: Effect)
    requires e.change.Leave? && e.ttl.KeepTtl?
    ensures Commit(s, now, k, e).values == s.values && Commit(s, now, k, e).ttl == s.ttl
  {
  }

  /** A logged HSET added a field, so it is no silent overwrite. */
  lemma {:induction false} LoggedIsLoud(s: State, now: int, k: string, act: Act)
    requires Logs(act, EffectOf(s, now, k, act).outcome)
    ensures !SilentOverwrite(s, OnData(k, act))
  {
  }

  lemma {:induction false} LoudLeave(s: State, now: int, k: string, act: Act)
    requires EffectOf(s, now, k, act).change.Leave?
    ensures !SilentOverwrite(s, OnData(k, act))
  {
  }

  lemma {:induction false} OnlyCreates(act: Act, now: int)
    ensures Meaning(act, now, None, None).change.Write? <==> Creates(act)
    ensures !Creates(act) ==> Meaning(act, now, None, None).change.Leave? && Meaning(act, now, None, None).ttl.KeepTtl?
    ensures !Creates(act) ==> !Logs(act, Meaning(act, now, None, None).outcome)
  {
  }

  /** Creating a key is logged. */
  lemma {:induction false} CreationLogged(act: Act, now: int)
    requires WellFormedAct(act) && Creates(act)
    ensures Logs(act, Meaning(act, now, None, None).outcome)
  {
    hide IsToken;
    if act.HSet? {
      Conservation.PutAllNonempty(OMap([], map[]), act.pairs);
    }
  }

  lemma {:induction false} MissingEffect(s: State, now: int, k: string, act: Act)
    requires s.Valid() && !s.Has(k)
    ensures EffectOf(s, now, k, act) == Meaning(act, now, None, None)
  {
    Missing(s, k);
  }

  /** Replaying keeps every deadline ahead. */
  lemma {:induction false} FreshStep(s: State, t: int, k: string, act: Act)
    requires s.Valid() && FreshAt(s, t) && (WellFormedAct(act) || act.TypeOf?)
    ensures FreshAt(KeyStep(s, t, k, act).0, t)
  {
    hide State.Valid, Commit, Meaning, WellFormedAct, Sane, Reserve, Restricts, Keep;
    FreshGate(s, t, k);
    var e := EffectOf(s, t, k, act);
    EffectSane(s, t, k, act);
    ShapeEqual(s, s, t, t, k, act);
    FreshCommit(s, t, k, e);
  }

  lemma {:induction false} FreshCommit(s: State, t: int, k: string, e: Effect)
    requires s.Valid() && FreshAt(s, t) && Sane(e, s.Has(k)) && (e.ttl.SetTtl? ==> e.ttl.at > t)
    ensures FreshAt(Commit(s, t, k, e), t)
  {
    hide State.Valid, Commit, Sane, Reserve, Restricts, Keep, Agrees;
    if e.change.Drop? {
      DropCommits(s, t, k, e);
      RemoveKeyValid(s, k);
    } else if e.change.Write? {
      var r := Reserve(s, t, k);
      ReservedFresh(s, t, k);
      CommitAfterReserve(s, t, k, e);
      CommitInPlace(r, t, k, e);
    } else if s.Has(k) {
      CommitInPlace(s, t, k, e);
    } else {
      LeaveMissing(s, t, k, e);
    }
  }

  lemma {:induction false} ReservedFresh(s: State, t: int, k: string)
    requires s.Valid() && FreshAt(s, t)
    ensures FreshAt(Reserve(s, t, k), t)
  {
    hide State.Valid, RemoveKey;
    if Full(s, k) && s.recency != [] {
      RemoveKeyValid(s, s.recency[|s.recency| - 1]);
    }
  }

  // ----- On an expired key -----

  /** What the live store is left with. */
  lemma {:induction false} ExpiredLive(a: State, now: int, k: string, act: Act)
    requires a.Valid() && a.Has(k) && a.ttl.IsExpired(k, now)
    ensures var u := KeyStep(a, now, k, act).0;
            && u.Valid() && u.capacity == a.capacity
            && (!Creates(act) ==> !u.Has(k))
            && (act.Set? ==>
                  && u.values.at == a.values.at[k := Str(act.value)]
                  && u.values.keys == Without(a.values.keys, k) + [k]
                  && (k in u.ttl.deadlines <==> act.ttl.Some?)
                  && u.ttl.deadlines.Keys - {k} == a.ttl.deadlines.Keys - {k})
            && (Creates(act) && !act.Set? ==> k !in u.ttl.deadlines)
    ensures KeyStep(a, now, k, act).1 == Meaning(act, now, None, None).outcome
  {
    hide State.Valid, Commit, Meaning, Sane, RemoveKey, Without;
    var g := Gate(a, now, k);
    RemoveParts(a, k);
    RemoveKeyValid(a, k);
    GateValid(a, now, k);
    KeyStepValid(a, now, k, act);
    assert !g.Has(k) && |g.values.keys| < g.capacity by { Parts(a); }
    MissingEffect(g, now, k, act);
    EffectSane(g, now, k, act);
    OnlyCreates(act, now);
    var e := EffectOf(g, now, k, act);
    if Creates(act) {
      CommitInPlace(g, now, k, e);
      CreatingEffect(act, now, None, None);
      Missing(g, k);
      assert (a.values.at - {k})[k := e.change.value] == a.values.at[k := e.change.value];
    } else {
      LeaveData(g, now, k, e);
    }
  }

  lemma {:induction false} CreatingEffect(act: Act, now: int, v: Option<Value>, d: Option<int>)
    ensures var e := Meaning(act, now, v, d);
            && (act.Set? ==> e.change == Write(Str(act.value)) && (act.ttl.Some? <==> e.ttl.SetTtl?) && !e.ttl.KeepTtl?)
            && (Creates(act) && !act.Set? ==> e.ttl.KeepTtl? && !e.change.Drop?)
  {
    hide PutAll;
  }

  /** What the replica, in which the key has not expired, makes of the logged line. */
  lemma {:induction false} ExpiredReplica(b: State, t: int, k: string, act: Act)
    requires b.Valid() && b.Has(k) && FreshAt(b, t) && k in b.ttl.deadlines && Creates(act)
    ensures var v := KeyStep(b, t, k, act).0;
            && v.Valid() && v.capacity == b.capacity
            && (act.Set? ==>
                  && v.values == b.values.Put(k, Str(act.value))
                  && (k in v.ttl.deadlines <==> act.ttl.Some?)
                  && v.ttl.deadlines.Keys - {k} == b.ttl.deadlines.Keys - {k})
            && (!act.Set? ==> k in v.ttl.deadlines)
  {
    hide State.Valid, Commit, Meaning, Sane;
    FreshGate(b, t, k);
    KeyStepValid(b, t, k, act);
    EffectSane(b, t, k, act);
    CreatingEffect(act, t, b.Lookup(k), b.Deadline(k));
    CommitInPlace(b, t, k, EffectOf(b, t, k, act));
  }

  lemma {:induction false} LastInPlace(keys: seq<string>, k: string)
    requires NoDup(keys) && k in keys
    ensures Without(keys, k) + [k] == keys <==> LRU.Last(keys) == Some(k)
  {
    var i :| 0 <= i < |keys| && keys[i] == k;
    WithoutAt(keys, i);
    if i + 1 < |keys| {
      assert (keys[..i] + keys[i + 1..] + [k])[i] == keys[i + 1];
    } else {
      assert keys[..i] + keys[i + 1..] + [k] == keys;
    }
  }

  /** An expiry is not logged. A data command on an expired key leaves live store and replica with
      the same data if and only if it is a SET of the key that is last in insertion order. */
  lemma {:induction false} ExpiryExact(a: State, b: State, now: int, t: int, k: string, act: Act)
    requires SameData(a, b) && FreshAt(b, t) && a.Has(k) && a.ttl.IsExpired(k, now) && WellFormedAct(act)
    ensures var d := ExecuteData(a, now, k, act);
            var b' := if d.logged then ExecuteData(b, t, k, act).state else b;
            SameData(d.state, b') <==> act.Set? && LRU.Last(a.values.keys) == Some(k)
  {
    hide State.Valid, KeyStep, Meaning, WellFormedAct, Without, Logs;
    ExpiredLive(a, now, k, act);
    Listed(a);
    OnlyCreates(act, now);
    if Creates(act) {
      ExpiredReplica(b, t, k, act);
      CreationLogged(act, now);
      LastInPlace(a.values.keys, k);
      var u, v := KeyStep(a, now, k, act).0, KeyStep(b, t, k, act).0;
      if act.Set? {
        SplitAt(u.ttl.deadlines.Keys, v.ttl.deadlines.Keys, k);
      }
    }
  }

  lemma {:induction false} SplitAt(x: set<string>, y: set<string>, k: string)
    requires x - {k} == y - {k} && (k in x <==> k in y)
    ensures x == y
  {
    assert forall z :: z in x <==> z in y by {
      forall z ensures z in x <==> z in y {
        assert z != k ==> (z in x - {k} <==> z in y - {k});
      }
    }
  }

  // ----- In a full store -----

  /** When a logged write of a new key finds the store full, the replica replays it alike if and only
      if it picks the same victim. Reads, which are not logged, decide that. */
  lemma {:induction false} EvictionAgrees(a: State, b: State, now: int, t: int, k: string, e: Effect, f: Effect)
    requires SameData(a, b) && FreshAt(b, t) && Full(a, k)
    requires SameShape(e, f, t) && Sane(e, false) && Sane(f, false) && e.change.Write?
    ensures a.recency != [] && b.recency != []
    ensures SameData(Commit(a, now, k, e), Commit(b, t, k, f))
            <==> a.recency[|a.recency| - 1] == b.recency[|b.recency| - 1]
  {
    hide State.Valid, Commit, Sane, Reserve, Keep, Restricts;
    FullVictim(a, k);
    FullVictim(b, k);
    var va, vb := a.recency[|a.recency| - 1], b.recency[|b.recency| - 1];
    CommitAfterReserve(a, now, k, e);
    CommitAfterReserve(b, t, k, f);
    ReservedData(a, now, k);
    ReservedData(b, t, k);
    var r, q := Reserve(a, now, k), Reserve(b, t, k);
    CommitValid(r, now, k, e);
    CommitValid(q, t, k, f);
    CommitInPlace(r, now, k, e);
    CommitInPlace(q, t, k, f);
    if va != vb {
      assert !Commit(a, now, k, e).Has(va) && Commit(b, t, k, f).Has(va);
    }
  }

  lemma {:induction false} FullVictim(s: State, k: string)
    requires s.Valid() && Full(s, k)
    ensures s.recency != [] && s.Has(s.recency[|s.recency| - 1]) && s.recency[|s.recency| - 1] != k
  {
    RecencySize(s);
  }

  /** What is left of a full store once room has been made. */
  lemma {:induction false} ReservedData(s: State, now: int, k: string)
    requires s.Valid() && Full(s, k) && s.recency != []
    ensures var v := s.recency[|s.recency| - 1];
            var r := Reserve(s, now, k);
            && r.Valid() && r.capacity == s.capacity
            && r.values == s.values.Remove(v)
            && r.ttl.deadlines == s.ttl.deadlines - {v}
  {
    ReserveValid(s, now, k);
    LastHeld(s);
    RemoveKeyValid(s, s.recency[|s.recency| - 1]);
  }

  /** The same for the commands themselves: the creating command is logged, and replaying its line
      agrees if and only if both stores evict the same key. */
  lemma {:induction false} EvictionExact(a: State, b: State, now: int, t: int, k: string, act: Act)
    requires SameData(a, b) && FreshAt(b, t) && Full(a, k) && Creates(act) && WellFormedAct(act)
    ensures var d := ExecuteData(a, now, k, act);
            && d.logged
            && (SameData(d.state, ExecuteData(b, t, k, act).state) <==> LRU.Last(a.recency) == LRU.Last(b.recency))
  {
    hide State.Valid, Commit, Meaning, WellFormedAct, Sane, Logs;
    UnexpiredGate(a, now, k);
    FreshGate(b, t, k);
    MissingEffect(a, now, k, act);
    OnlyCreates(act, now);
    CreationLogged(act, now);
    EffectSane(a, now, k, act);
    EffectSane(b, t, k, act);
    SameAbsent(a, b, k);
    ShapeEqual(a, b, now, t, k, act);
    EvictionAgrees(a, b, now, t, k, EffectOf(a, now, k, act), EffectOf(b, t, k, act));
  }

  lemma {:induction false} SameAbsent(a: State, b: State, k: string)
    requires SameData(a, b) && !a.Has(k)
    ensures !b.Has(k) && a.Lookup(k) == b.Lookup(k) && a.Deadline(k) == b.Deadline(k) == None
  {
    Missing(a, k);
    Missing(b, k);
  }

  // ----- Any command -----

  /** With room for the key and the key not expired: the replica still holds the same data if and
      only if the command was no silent overwrite. */
  lemma {:induction false} PlainStep(a: State, b: State, now: int, t: int, k: string, act: Act)
    requires SameData(a, b) && FreshAt(b, t) && Conservation.NoneEmpty(a) && WellFormedAct(act)
    requires !(a.Has(k) && a.ttl.IsExpired(k, now)) && !(Full(a, k) && Creates(act))
    ensures var d := ExecuteData(a, now, k, act);
            var b' := if d.logged then ExecuteData(b, t, k, act).state else b;
            SameData(d.state, b') <==> !SilentOverwrite(a, OnData(k, act))
  {
    hide State.Valid, Commit, Meaning, WellFormedAct, Sane;
    UnexpiredGate(a, now, k);
    FreshGate(b, t, k);
    var e, f := EffectOf(a, now, k, act), EffectOf(b, t, k, act);
    EffectSane(a, now, k, act);
    EffectSane(b, t, k, act);
    ShapeEqual(a, b, now, t, k, act);
    NoRoomNeeded(a, now, k, act);
    var d := ExecuteData(a, now, k, act);
    KeyStepValid(a, now, k, act);
    if d.logged {
      CommitSame(a, b, now, t, k, e, f);
      LoggedIsLoud(a, now, k, act);
    } else {
      UnloggedLeaves(a, now, k, act);
      if e.change.Leave? {
        LeaveData(a, now, k, e);
        LoudLeave(a, now, k, act);
      } else {
        OverwriteSame(a, now, k, e);
        HashFields(a, k);
        PutAllGrows(a.values.at[k].fields, act.pairs);
      }
    }
  }

  lemma {:induction false} NoRoomNeeded(s: State, now: int, k: string, act: Act)
    requires s.Valid() && !(Full(s, k) && Creates(act))
    ensures EffectOf(s, now, k, act).change.Write? ==> !Full(s, k)
  {
    hide State.Valid, Meaning;
    if !s.Has(k) {
      MissingEffect(s, now, k, act);
      OnlyCreates(act, now);
    }
  }

  /** Replaying what a data command has logged, exactly. */
  lemma {:induction false} DataStep(a: State, b: State, now: int, t: int, k: string, act: Act)
    requires SameData(a, b) && FreshAt(b, t) && Conservation.NoneEmpty(a) && WellFormedAct(act)
    ensures var d := ExecuteData(a, now, k, act);
            var b' := if d.logged then ExecuteData(b, t, k, act).state else b;
            && FreshAt(b', t)
            && (SameData(d.state, b') <==> Keeps(a, b, now, OnData(k, act)))
  {
    hide State.Valid, KeyStep, Meaning, WellFormedAct, ExecuteData, SilentOverwrite, Full, Conservation.NoneEmpty;
    ReplicaFresh(b, t, k, act);
    if a.Has(k) && a.ttl.IsExpired(k, now) {
      ExpiryExact(a, b, now, t, k, act);
    } else if Full(a, k) && Creates(act) {
      EvictionExact(a, b, now, t, k, act);
    } else {
      PlainStep(a, b, now, t, k, act);
    }
  }

  lemma {:induction false} ReplicaFresh(b: State, t: int, k: string, act: Act)
    requires b.Valid() && FreshAt(b, t) && WellFormedAct(act)
    ensures FreshAt(ExecuteData(b, t, k, act).state, t)
  {
    hide KeyStep, State.Valid;
    FreshStep(b, t, k, act);
  }

  /** GET changes the data only by reclaiming the key it finds expired. */
  lemma {:induction false} GetStep(a: State, b: State, now: int, k: string)
    requires SameData(a, b)
    ensures var d := ExecuteGet(a, now, k);
            !d.logged && (SameData(d.state, b) <==> !(a.Has(k) && a.ttl.IsExpired(k, now)))
  {
    hide State.Valid;
    KeyStepValid(a, now, k, TypeOf);
    var g := KeyStep(a, now, k, TypeOf).0;
    KeyStepValid(g, now, k, Act.Get);
    if a.Has(k) && a.ttl.IsExpired(k, now) {
      hide KeyStep;
      ExpiredLive(a, now, k, TypeOf);
      GetMissing(g, now, k);
    } else {
      UnexpiredGate(a, now, k);
      assert g == a;
    }
  }

  lemma {:induction false} GetMissing(s: State, now: int, k: string)
    requires s.Valid() && !s.Has(k)
    ensures KeyStep(s, now, k, Act.Get).0 == s
  {
  }

  /** Listing keys changes the data only by reclaiming expired ones. */
  lemma {:induction false} PurgeFresh(s: State, now: int, ks: seq<string>)
    requires FreshAt(s, now)
    ensures Purge(s, now, ks) == s
    decreases ks
  {
    if ks != [] {
      FreshGate(s, now, ks[0]);
      PurgeFresh(s, now, ks[1..]);
    }
  }

  lemma {:induction false} PurgeExact(a: State, b: State, now: int)
    requires SameData(a, b)
    ensures SameData(Purge(a, now, a.values.keys), b) <==> FreshAt(a, now)
  {
    hide State.Valid, Keep, Purge, Agrees;
    var p := Purge(a, now, a.values.keys);
    PurgeRestricts(a, now, a.values.keys);
    PurgeCapacity(a, now, a.values.keys);
    if FreshAt(a, now) {
      PurgeFresh(a, now, a.values.keys);
    } else {
      var k :| k in a.ttl.deadlines && a.ttl.deadlines[k] <= now;
      TimedHeld(a, k);
      Listed(a);
      assert !p.Has(k) && a.Has(k);
    }
  }

  /** The log keeps up with one command, whichever it is, exactly when `Keeps` says so. */
  lemma {:induction false} CommandStep(a: State, b: State, now: int, t: int, c: Command)
    requires SameData(a, b) && FreshAt(b, t) && Conservation.NoneEmpty(a) && WellFormedCommand(c)
    ensures var d := Execute(a, now, c);
            var b' := if d.logged then Execute(b, t, c).state else b;
            && FreshAt(b', t)
            && (SameData(d.state, b') <==> Keeps(a, b, now, c))
  {
    hide State.Valid, ExecuteData, ExecuteGet, Purge, FreshAt;
    match c
    case OnData(k, act) =>
      if act.Get? {
        GetStep(a, b, now, k);
      } else {
        DataStep(a, b, now, t, k, act);
      }
    case ListKeys(_) => PurgeExact(a, b, now);
    case _ =>
  }

  // ----- What every command keeps -----

  lemma {:induction false} CarriesWellFormed(k: string, act: Act)
    requires WellFormedAct(act)
    ensures Conservation.Carries(OnKey(k, act))
  {
  }

  lemma {:induction false} ExecuteNonempty(s: State, now: int, c: Command)
    requires s.Valid() && Conservation.NoneEmpty(s) && WellFormedCommand(c)
    ensures Conservation.NoneEmpty(Execute(s, now, c).state)
  {
    hide State.Valid, Step, Conservation.NoneEmpty;
    if c.OnData? {
      CarriesWellFormed(c.key, c.act);
      Conservation.StepNonempty(s, now, OnKey(c.key, c.act));
      Conservation.StepNonempty(s, now, OnKey(c.key, TypeOf));
      StepValid(s, now, OnKey(c.key, TypeOf));
      Conservation.StepNonempty(Step(s, now, OnKey(c.key, TypeOf)).0, now, OnKey(c.key, Act.Get));
    } else if c.ListKeys? {
      Conservation.StepNonempty(s, now, Keys(c.pattern));
    }
  }

  /** A logged line replays as the command it was logged for. */
  lemma {:induction false} LoggedLine(s: State, t: int, item: Item)
    requires Parse(item.line) == Parsed(item.command)
    ensures ReplayLine(s, t, Trim(item.line)) == Execute(s, t, item.command).state
  {
    ParseTrimmed(item.line);
    hide Parse, Execute;
  }

  lemma {:induction false} EmptyFresh(c: nat, t: int)
    requires c >= 1
    ensures Empty(c).Valid() && FreshAt(Empty(c), t) && Conservation.NoneEmpty(Empty(c))
  {
  }

  // ----- Logged commands that change nothing -----

  /** A logged act that leaves the data as it was: a SET of the value that is there, or an EXPIRE of a
      key that has a deadline. */
  predicate Harmless(s: State, now: int, k: string, act: Act) {
    s.Has(k) &&
    match act
    case Set(x, ttl) =>
      && s.values.at[k] == Str(x) && (ttl.Some? <==> k in s.ttl.deadlines)
      && (s.ttl.IsExpired(k, now) ==> LRU.Last(s.values.keys) == Some(k))
    case Expire(_) => k in s.ttl.deadlines
    case _ => false
  }

  /** Every other logged act on a key drops it or writes a different value. */
  lemma {:induction false} LoggedChanges(act: Act, now: int, v: Value, d: Option<int>)
    requires WellFormedAct(act) && !act.Set? && !act.Expire? && !act.Persist?
    requires Logs(act, Meaning(act, now, Some(v), d).outcome)
    ensures var e := Meaning(act, now, Some(v), d);
            e.change.Drop? || (e.change.Write? && e.change.value != v)
  {
    hide IsToken, PutAll, RemoveAll;
    match act
    case LPush(xs) => LongerList(v, Reverse(xs), true);
    case RPush(xs) => LongerList(v, xs, false);
    case _ =>
  }

  lemma {:induction false} LongerList(v: Value, xs: seq<string>, front: bool)
    requires xs != []
    ensures v.List? ==> List(if front then xs + v.elems else v.elems + xs) != v
  {
    if v.List? {
      assert |xs + v.elems| > |v.elems| && |v.elems + xs| > |v.elems|;
    }
  }

  lemma {:induction false} TtlActs(act: Act, now: int, v: Value, d: Option<int>)
    ensures var e := Meaning(act, now, Some(v), d);
            && (act.Set? ==> e.change == Write(Str(act.value)))
            && (act.Set? ==> e.ttl == if act.ttl.Some? then SetTtl(now + act.ttl.value * 1000) else ClearTtl)
            && (act.Expire? ==> e.change.Leave? && e.ttl.SetTtl?)
            && (act.Persist? && Logs(act, e.outcome) ==> e.change.Leave? && e.ttl.ClearTtl? && d.Some?)
  {
  }

  lemma {:induction false} WriteHolds(s: State, now: int, k: string, e: Effect)
    requires e.change.Write?
    ensures Commit(s, now, k, e).Has(k)
  {
  }

  /** A logged command leaves the data as it was exactly when it is harmless. */
  lemma {:induction false} HarmlessExact(s: State, now: int, k: string, act: Act)
    requires s.Valid() && WellFormedAct(act) && ExecuteData(s, now, k, act).logged
    ensures SameData(s, ExecuteData(s, now, k, act).state) <==> Harmless(s, now, k, act)
  {
    hide State.Valid, Commit, Meaning, WellFormedAct, Sane, Logs, Without;
    KeyStepValid(s, now, k, act);
    if s.Has(k) && s.ttl.IsExpired(k, now) {
      hide KeyStep;
      ExpiredLive(s, now, k, act);
      OnlyCreates(act, now);
      Listed(s);
      LastInPlace(s.values.keys, k);
      var u := KeyStep(s, now, k, act).0;
      if act.Set? {
        SplitAtIff(u.ttl.deadlines.Keys, s.ttl.deadlines.Keys, k);
        OverwriteIff(s.values.at, k, Str(act.value));
      }
    } else {
      UnexpiredGate(s, now, k);
      var e := EffectOf(s, now, k, act);
      EffectSane(s, now, k, act);
      if !s.Has(k) {
        MissingEffect(s, now, k, act);
        OnlyCreates(act, now);
        WriteHolds(s, now, k, e);
      } else {
        HeldExact(s, now, k, act);
      }
    }
  }

  lemma {:induction false} HeldExact(s: State, now: int, k: string, act: Act)
    requires s.Valid() && WellFormedAct(act) && s.Has(k) && !s.ttl.IsExpired(k, now)
    requires Logs(act, EffectOf(s, now, k, act).outcome)
    ensures var u := Commit(s, now, k, EffectOf(s, now, k, act));
            u.values == s.values && u.ttl.deadlines.Keys == s.ttl.deadlines.Keys <==> Harmless(s, now, k, act)
  {
    hide State.Valid, Commit, Meaning, WellFormedAct, Sane, Logs;
    var e := EffectOf(s, now, k, act);
    EffectSane(s, now, k, act);
    TtlActs(act, now, s.values.at[k], s.Deadline(k));
    OverwriteIff(s.values.at, k, if e.change.Write? then e.change.value else s.values.at[k]);
    if !act.Set? && !act.Expire? && !act.Persist? {
      LoggedChanges(act, now, s.values.at[k], s.Deadline(k));
    }
    if e.change.Drop? {
      DropCommits(s, now, k, e);
      RemoveKeyValid(s, k);
    } else {
      CommitInPlace(s, now, k, e);
    }
  }

  lemma {:induction false} OverwriteIff<V>(m: map<string, V>, k: string, v: V)
    requires k in m
    ensures m[k := v] == m <==> m[k] == v
  {
    if m[k := v] == m {
      assert m[k := v][k] == v;
    }
  }

  lemma {:induction false} SplitAtIff(x: set<string>, y: set<string>, k: string)
    requires x - {k} == y - {k}
    ensures x == y <==> (k in x <==> k in y)
  {
    if k in x <==> k in y {
      SplitAt(x, y, k);
    }
  }
}
