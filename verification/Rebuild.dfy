/** Replaying a compacted file rebuilds the store it was printed from. */
module Rebuild {
  import opened Options
  import opened Sequences
  import opened OrderedMap
  import opened Text
  import opened StoreSpec
  import opened StoreFacts
  import opened StoreRelations
  import opened CommandParser
  import opened LogReplay
  import opened Printing
  import opened Compaction
  import Conservation
  import LRU

  /** The deadline that a key gets at `t` when its remaining time at `now` was rounded up. */
  function Shifted(p: State, now: int, t: int, k: string): Option<int> {
    if k in p.ttl.deadlines then Some(t + 1000 * Seconds(p.ttl.deadlines[k] - now)) else None
  }

  /** `r` is `p` as rebuilt from its first `n` keys. */
  ghost predicate Rebuilt(r: State, p: State, now: int, t: int, n: nat) {
    && r.Valid() && r.capacity == p.capacity && n <= |p.values.keys|
    && r.values.keys == p.values.keys[..n]
    && (forall k :: k in r.values.at ==> k in p.values.at && r.values.at[k] == p.values.at[k])
    && r.recency == Reverse(p.values.keys[..n])
    && (forall k :: k in r.values.at ==> r.Deadline(k) == Shifted(p, now, t, k))
    && r.expired == [] && r.evicted == []
  }

  /** What is printed: a valid state of tokens, without empty containers, nothing in it expired. */
  ghost predicate Printable(p: State, now: int) {
    p.Valid() && Storable(p, now) && Conservation.NoneEmpty(p)
    && forall k :: p.Has(k) ==> !p.ttl.IsExpired(k, now)
  }

  /** Adding the next key. */
  lemma {:induction false} Extend(r: State, u: State, p: State, now: int, t: int, n: nat, k: string)
    requires Rebuilt(r, p, now, t, n) && p.Valid() && n < |p.values.keys| && k == p.values.keys[n]
    requires u.Valid() && u.capacity == r.capacity && p.Has(k) && !r.Has(k)
    requires u.values == r.values.Put(k, p.values.at[k]) && u.recency == [k] + r.recency
    requires u.ttl.deadlines == match Shifted(p, now, t, k)
                                case None => r.ttl.deadlines
                                case Some(at) => r.ttl.deadlines[k := at]
    requires u.expired == [] && u.evicted == []
    ensures Rebuilt(u, p, now, t, n + 1)
  {
    hide State.Valid, Reverse, Shifted;
    Missing(r, k);
    assert k !in r.values.at;
    assert p.values.keys[..n + 1] == p.values.keys[..n] + [k];
    ReverseAppend(p.values.keys[..n], k);
    forall x | x in u.values.at ensures u.Deadline(x) == Shifted(p, now, t, x) {
      if x != k {
        assert x in r.values.at && r.Deadline(x) == Shifted(p, now, t, x);
        assert u.Deadline(x) == r.Deadline(x);
      }
    }
  }

  /** The next key is new, and there is room for it. */
  lemma {:induction false} NextKey(r: State, p: State, now: int, t: int, n: nat)
    requires Rebuilt(r, p, now, t, n) && p.Valid() && n < |p.values.keys|
    ensures var k := p.values.keys[n];
            p.Has(k) && !r.Has(k) && |r.values.keys| < r.capacity && !Full(r, k) && Gate(r, t, k) == r
  {
  }

  /** A write of a new key into a store with room. */
  lemma {:induction false} AddFresh(r: State, t: int, k: string, act: Act, e: Effect)
    requires r.Valid() && !r.Has(k) && !Full(r, k) && e == EffectOf(r, t, k, act) && e.change.Write?
    ensures var u := KeyStep(r, t, k, act).0;
            && u.Valid() && u.capacity == r.capacity
            && u.values == r.values.Put(k, e.change.value)
            && u.recency == [k] + r.recency
            && u.ttl.deadlines == (if e.ttl.SetTtl? then r.ttl.deadlines[k := e.ttl.at] else r.ttl.deadlines)
            && u.expired == r.expired && u.evicted == r.evicted
  {
    hide State.Valid, Meaning, Commit, Without, Sane;
    Missing(r, k);
    assert Gate(r, t, k) == r;
    KeyStepValid(r, t, k, act);
    EffectSane(r, t, k, act);
    CommitInPlace(r, t, k, e);
    assert Without(r.recency, k) == r.recency;
    assert r.ttl.deadlines - {k} == r.ttl.deadlines;
    FreshTouch(act, t, r.Lookup(k), r.Deadline(k));
  }

  lemma {:induction false} FreshTouch(act: Act, now: int, v: Option<Value>, d: Option<int>)
    ensures Meaning(act, now, v, d).change.Write? ==> Meaning(act, now, v, d).touch
  {
  }

  /** EXPIRE of the key just added. */
  lemma {:induction false} ExpireFront(u: State, t: int, k: string, seconds: int, rest: seq<string>)
    requires u.Valid() && u.Has(k) && u.recency == [k] + rest && k !in u.ttl.deadlines
    ensures var w := KeyStep(u, t, k, Act.Expire(seconds)).0;
            && w.Valid() && w.capacity == u.capacity && w.values == u.values && w.recency == u.recency
            && w.ttl.deadlines == u.ttl.deadlines[k := t + seconds * 1000]
            && w.expired == u.expired && w.evicted == u.evicted
  {
    hide State.Valid, Commit, Without, LRU.Touched, Sane;
    HeadTouched(u, k, rest);
    assert Gate(u, t, k) == u;
    var e := EffectOf(u, t, k, Act.Expire(seconds));
    assert e.change.Leave? && e.touch && e.ttl == SetTtl(t + seconds * 1000);
    hide EffectOf, Meaning;
    KeyStepValid(u, t, k, Act.Expire(seconds));
    EffectSane(u, t, k, Act.Expire(seconds));
    CommitInPlace(u, t, k, e);
  }

  lemma {:induction false} HeadTouched(u: State, k: string, rest: seq<string>)
    requires u.Valid() && u.recency == [k] + rest
    ensures LRU.Touched(u.recency, k) == u.recency
  {
  }

  lemma {:induction false} TtlBounds(p: State, now: int, t: int, k: string)
    requires Printable(p, now) && p.Has(k)
    ensures var n := TtlOf(p, now, k);
            && (n > 0 <==> k in p.ttl.deadlines) && n <= MAX_TTL_SECONDS
            && Shifted(p, now, t, k) == if n > 0 then Some(t + n * 1000) else None
  {
  }

  lemma {:induction false} ReplayOne(r: State, t: int, line: string)
    ensures Replay(r, t, [line]) == ReplayLine(r, t, line)
  {
    assert [line][..0] == [];
    assert Replay(r, t, []) == r;
  }

  lemma {:induction false} ReplayTwo(r: State, t: int, a: string, b: string)
    ensures Replay(r, t, [a] + [b]) == ReplayLine(ReplayLine(r, t, a), t, b)
  {
    ReplayOne(r, t, a);
    ReplaySnoc(r, t, [a], b);
  }

  /** A line that parses as an act is replayed as that act. */
  lemma {:induction false} ReplayAct(r: State, t: int, line: string, k: string, act: Act)
    requires Parse(line) == Parsed(OnData(k, act)) && !act.Get?
    ensures ReplayLine(r, t, line) == KeyStep(r, t, k, act).0
  {
    hide Parse, KeyStep;
  }

  lemma {:induction false} HeldTokens(p: State, now: int, k: string)
    requires Printable(p, now) && p.Has(k)
    ensures IsToken(k) && TokenValue(p.values.at[k]) && Conservation.Nonempty(p.values.at[k])
  {
    hide State.Valid, IsToken, TokenValue, Conservation.Nonempty;
  }

  lemma {:induction false} RebuiltValid(r: State, p: State, now: int, t: int, n: nat)
    requires Rebuilt(r, p, now, t, n)
    ensures r.Valid() && r.expired == [] && r.evicted == []
  {
    hide State.Valid;
  }

  lemma {:induction false} PrintableValid(p: State, now: int)
    requires Printable(p, now)
    ensures p.Valid()
  {
    hide State.Valid;
  }

  /** A string key: one line. */
  lemma {:induction false} RebuildString(r: State, p: State, now: int, t: int, n: nat, k: string)
    requires Printable(p, now) && Rebuilt(r, p, now, t, n) && n < |p.values.keys| && k == p.values.keys[n]
    requires p.Has(k) && p.values.at[k].Str?
    ensures Rebuilt(Replay(r, t, LinesFor(k, p.values.at[k], TtlOf(p, now, k))), p, now, t, n + 1)
  {
    hide State.Valid, Parse, IsToken, KeyStep, IntText, Shifted, TtlOf, Printable, Rebuilt, Replay, ReplayLine;
    PrintableValid(p, now);
    RebuiltValid(r, p, now, t, n);
    var x, seconds := p.values.at[k].text, TtlOf(p, now, k);
    TtlBounds(p, now, t, k);
    HeldTokens(p, now, k);
    NextKey(r, p, now, t, n);
    var act := Act.Set(x, if seconds > 0 then Some(seconds) else None);
    var line := if seconds > 0 then "SET " + k + " " + x + " EX " + IntText(seconds) else "SET " + k + " " + x;
    if seconds > 0 {
      ParseSetExLine(k, x, seconds);
    } else {
      ParseSetLine(k, x);
    }
    assert LinesFor(k, p.values.at[k], seconds) == [line];
    ReplayOne(r, t, line);
    ReplayAct(r, t, line, k, act);
    AddFresh(r, t, k, act, EffectOf(r, t, k, act));
    Extend(r, KeyStep(r, t, k, act).0, p, now, t, n, k);
  }

  /** A list or hash key: the line that writes it, and the EXPIRE line if it has a deadline. */
  lemma {:induction false} RebuildContainer(r: State, p: State, now: int, t: int, n: nat, k: string,
                                            line: string, act: Act)
    requires Printable(p, now) && Rebuilt(r, p, now, t, n) && n < |p.values.keys| && k == p.values.keys[n]
    requires p.Has(k) && Parse(line) == Parsed(OnData(k, act)) && !act.Get?
    requires EffectOf(r, t, k, act).change == Write(p.values.at[k]) && EffectOf(r, t, k, act).ttl.KeepTtl?
    ensures Rebuilt(Replay(r, t, [line] + ExpireLine(k, TtlOf(p, now, k))), p, now, t, n + 1)
  {
    hide State.Valid, Parse, IsToken, KeyStep, IntText, Shifted, TtlOf, EffectOf, Printable, Rebuilt;
    hide Replay, ReplayLine;
    PrintableValid(p, now);
    RebuiltValid(r, p, now, t, n);
    var seconds := TtlOf(p, now, k);
    TtlBounds(p, now, t, k);
    NextKey(r, p, now, t, n);
    ReplayAct(r, t, line, k, act);
    AddFresh(r, t, k, act, EffectOf(r, t, k, act));
    var u := KeyStep(r, t, k, act).0;
    if seconds > 0 {
      HeldTokens(p, now, k);
      var expire := "EXPIRE " + k + " " + IntText(seconds);
      ParseExpireLine(k, seconds);
      ReplayTwo(r, t, line, expire);
      ReplayAct(u, t, expire, k, Act.Expire(seconds));
      Missing(r, k);
      PutHas(r, u, k, p.values.at[k]);
      ExpireFront(u, t, k, seconds, r.recency);
      Extend(r, KeyStep(u, t, k, Act.Expire(seconds)).0, p, now, t, n, k);
    } else {
      assert [line] + ExpireLine(k, seconds) == [line];
      ReplayOne(r, t, line);
      Extend(r, u, p, now, t, n, k);
    }
  }

  lemma {:induction false} PutHas(r: State, u: State, k: string, v: Value)
    requires u.values == r.values.Put(k, v)
    ensures u.Has(k)
  {
  }

  /** Pushing a whole list, or setting a whole hash, onto a missing key. */
  lemma {:induction false} WholeContainer(r: State, t: int, k: string)
    requires !r.Has(k)
    ensures forall l :: EffectOf(r, t, k, Act.RPush(l)).change == Write(List(l))
                        && EffectOf(r, t, k, Act.RPush(l)).ttl.KeepTtl?
    ensures forall ps :: EffectOf(r, t, k, Act.HSet(ps)).change == Write(Hash(PutAll(OMap([], map[]), ps)))
                         && EffectOf(r, t, k, Act.HSet(ps)).ttl.KeepTtl?
  {
    hide PutAll;
  }

  lemma {:induction false} RebuildKey(r: State, p: State, now: int, t: int, n: nat, k: string)
    requires Printable(p, now) && Rebuilt(r, p, now, t, n) && n < |p.values.keys| && k == p.values.keys[n]
    requires p.Has(k)
    ensures Rebuilt(Replay(r, t, LinesFor(k, p.values.at[k], TtlOf(p, now, k))), p, now, t, n + 1)
  {
    hide State.Valid, Parse, IsToken, Printable, Rebuilt, Replay, EffectOf, TtlOf, ExpireLine, PutAll, Flat, Join;
    PrintableValid(p, now);
    var v := p.values.at[k];
    HeldTokens(p, now, k);
    NextKey(r, p, now, t, n);
    WholeContainer(r, t, k);
    if v.Str? {
      RebuildString(r, p, now, t, n, k);
    } else if v.List? {
      ParsePushLine(k, v.elems);
      RebuildContainer(r, p, now, t, n, k, "RPUSH " + k + " " + Join(v.elems), Act.RPush(v.elems));
    } else {
      HashFields(p, k);
      ParseHashLine(k, v.fields);
      HashRebuilt(v.fields);
      RebuildContainer(r, p, now, t, n, k, "HSET " + k + " " + Join(Flat(v.fields.keys, v.fields.at)),
                       Act.HSet(FieldPairs(v.fields.keys, v.fields.at)));
    }
  }

  lemma {:induction false} RebuildPrefix(p: State, now: int, t: int, n: nat)
    requires Printable(p, now) && n <= |p.values.keys|
    requires forall k :: k in p.values.keys ==> p.Has(k)
    ensures Rebuilt(Replay(Empty(p.capacity), t, LinesForAll(p, now, p.values.keys[..n])), p, now, t, n)
    decreases n
  {
    hide Printable, Rebuilt, LinesFor, State.Valid, Replay, TtlOf;
    if n == 0 {
      PrintableValid(p, now);
      Blank(p, now, t);
    } else {
      var k, before := p.values.keys[n - 1], p.values.keys[..n - 1];
      RebuildPrefix(p, now, t, n - 1);
      assert k in p.values.keys;
      RebuildKey(Replay(Empty(p.capacity), t, LinesForAll(p, now, before)), p, now, t, n - 1, k);
      assert p.values.keys[..n][..n - 1] == before;
      ReplayAppend(Empty(p.capacity), t, LinesForAll(p, now, before), LinesFor(k, p.values.at[k], TtlOf(p, now, k)));
      assert LinesForAll(p, now, p.values.keys[..n])
             == LinesForAll(p, now, before) + LinesFor(k, p.values.at[k], TtlOf(p, now, k));
    }
  }

  lemma {:induction false} Blank(p: State, now: int, t: int)
    requires p.Valid()
    ensures Rebuilt(Replay(Empty(p.capacity), t, LinesForAll(p, now, p.values.keys[..0])), p, now, t, 0)
  {
  }

  // ----- The order of use after a rewrite -----

  /** What stays of an order once every key of `ks` has been taken out. */
  function RestOf(r: seq<string>, ks: seq<string>): (rest: seq<string>)
    ensures forall x :: x in rest <==> x in r && x !in ks
  {
    if ks == [] then r else Without(RestOf(r, ks[..|ks| - 1]), ks[|ks| - 1])
  }

  lemma {:induction false} RestSnoc(r: seq<string>, ks: seq<string>, k: string)
    ensures RestOf(r, ks + [k]) == Without(RestOf(r, ks), k)
  {
  }

  lemma {:induction false} TouchedAppend(a: seq<string>, b: seq<string>, k: string)
    requires k !in a
    ensures LRU.Touched(a + b, k) == [k] + a + Without(b, k)
  {
    WithoutAppend(a, b, k);
    assert Without(a, k) == a;
  }

  lemma {:induction false} TouchAllOrder(r: seq<string>, ks: seq<string>)
    requires NoDup(ks)
    ensures TouchAll(r, ks) == Reverse(ks) + RestOf(r, ks)
  {
    if ks != [] {
      var n := |ks| - 1;
      var before, k := ks[..n], ks[n];
      TouchAllOrder(r, before);
      assert before + [k] == ks;
      assert k !in before;
      hide RestOf, NoDup, Reverse;
      ReverseAppend(before, k);
      TouchedAppend(Reverse(before), RestOf(r, before), k);
      assert RestOf(r, ks) == Without(RestOf(r, before), k) by { RestSnoc(r, before, k); }
    }
  }

  /** Reading all keys in insertion order makes the recency order its reverse. */
  lemma {:induction false} AllTouched(p: State)
    requires p.Valid()
    ensures TouchAll(p.recency, p.values.keys) == Reverse(p.values.keys)
  {
    TouchAllOrder(p.recency, p.values.keys);
    var rest := RestOf(p.recency, p.values.keys);
    EmptyOrMember(rest);
    assert Reverse(p.values.keys) + [] == Reverse(p.values.keys);
  }

  lemma {:induction false} EmptyOrMember(s: seq<string>)
    ensures s == [] || exists x :: x in s
  {
    if s != [] {
      assert s[0] in s;
    }
  }

  lemma {:induction false} CompactedPrintable(s: State, now: int)
    requires s.Valid() && Storable(s, now) && Conservation.NoneEmpty(s)
    ensures Printable(Purge(s, now, s.values.keys), now)
  {
    hide State.Valid, Keep, Purge, IsToken, TokenValue, Conservation.Nonempty;
    PurgeListed(s, now);
    PurgeRestricts(s, now, s.values.keys);
    RestrictStorable(Purge(s, now, s.values.keys), s, now);
  }

  /** The compaction round trip: print a store at `now`, replay the lines at any `t` into an empty
      store of the same capacity, and the values come back with their list, field and insertion
      orders, in the recency order the live store has after the rewrite, without an eviction, each
      remaining time rounded up by less than a second. */
  lemma {:induction false} CompactionRoundTrip(s: State, now: int, t: int)
    requires s.Valid() && Storable(s, now) && Conservation.NoneEmpty(s)
    ensures var p := Compacted(s, now);
            var r := Replay(Empty(s.capacity), t, Compact(s, now));
            && r.values == p.values
            && r.recency == p.recency
            && r.expired == [] && r.evicted == []
            && (forall k :: k in r.ttl.deadlines <==> k in p.ttl.deadlines)
            && (forall k :: k in p.ttl.deadlines ==>
                  p.ttl.deadlines[k] - now <= r.ttl.deadlines[k] - t < p.ttl.deadlines[k] - now + 1000)
            && r.Valid() && r.capacity == s.capacity
  {
    var p := Purge(s, now, s.values.keys);
    PurgeListed(s, now);
    CompactedPrintable(s, now);
    PurgeCapacity(s, now, s.values.keys);
    RebuildPrefix(p, now, t, |p.values.keys|);
    assert p.values.keys[..|p.values.keys|] == p.values.keys;
    AllTouched(p);
    hide Purge, Storable, Conservation.NoneEmpty;
    WholeRebuilt(Replay(Empty(p.capacity), t, LinesForAll(p, now, p.values.keys)), p, now, t);
  }

  /** Once all keys are rebuilt, nothing is missing. */
  lemma {:induction false} WholeRebuilt(r: State, p: State, now: int, t: int)
    requires Rebuilt(r, p, now, t, |p.values.keys|) && Printable(p, now)
    ensures r.values == p.values
    ensures forall k :: k in r.ttl.deadlines <==> k in p.ttl.deadlines
    ensures forall k :: k in p.ttl.deadlines ==>
              p.ttl.deadlines[k] - now <= r.ttl.deadlines[k] - t < p.ttl.deadlines[k] - now + 1000
    ensures FreshAt(r, t)
  {
    assert p.values.keys[..|p.values.keys|] == p.values.keys;
    forall k ensures k in r.values.at <==> k in p.values.at {
      assert k in r.values.at <==> k in r.values.keys;
      assert k in p.values.at <==> k in p.values.keys;
    }
    assert r.values.at == p.values.at;
    forall k ensures k in r.ttl.deadlines <==> k in p.ttl.deadlines {
      if k in r.values.at { assert r.Deadline(k) == Shifted(p, now, t, k); }
    }
    forall k | k in p.ttl.deadlines
      ensures p.ttl.deadlines[k] - now <= r.ttl.deadlines[k] - t < p.ttl.deadlines[k] - now + 1000
      ensures r.ttl.deadlines[k] > t
    {
      assert k in r.values.at && r.Deadline(k) == Shifted(p, now, t, k);
      assert !p.ttl.IsExpired(k, now);
    }
  }

  /** In particular the data is the same, and no deadline has passed yet. */
  lemma {:induction false} CompactionSameData(s: State, now: int, t: int)
    requires s.Valid() && Storable(s, now) && Conservation.NoneEmpty(s)
    ensures var p := Compacted(s, now);
            var r := Replay(Empty(s.capacity), t, Compact(s, now));
            SameData(p, r) && FreshAt(r, t)
  {
    CompactionRoundTrip(s, now, t);
    var p := Purge(s, now, s.values.keys);
    CompactedValid(s, now);
    forall k | k in Replay(Empty(s.capacity), t, Compact(s, now)).ttl.deadlines
      ensures Replay(Empty(s.capacity), t, Compact(s, now)).ttl.deadlines[k] > t
    {
      PurgeListed(s, now);
      DeadlineAhead(p, now, k);
    }
  }

  lemma {:induction false} DeadlineAhead(p: State, now: int, k: string)
    requires p.Valid() && k in p.ttl.deadlines && forall x :: p.Has(x) ==> !p.ttl.IsExpired(x, now)
    ensures p.ttl.deadlines[k] > now
  {
    assert p.Has(k);
  }

  lemma {:induction false} CompactedValid(s: State, now: int)
    requires s.Valid()
    ensures Compacted(s, now).Valid() && Compacted(s, now).capacity == s.capacity
  {
    PurgeListed(s, now);
    PurgeCapacity(s, now, s.values.keys);
    var p := Purge(s, now, s.values.keys);
    AllTouched(p);
    ReversedNoDup(p.values.keys);
    Listed(p);
  }

  lemma {:induction false} ReversedNoDup(s: seq<string>)
    requires NoDup(s)
    ensures NoDup(Reverse(s))
  {
    if s != [] {
      NoDupTail(s);
      ReversedNoDup(s[1..]);
    }
  }
}
