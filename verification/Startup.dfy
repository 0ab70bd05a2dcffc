/** Starting up from both files: the append-only file replayed on top of the restored snapshot. What
    the snapshot already holds is there when the file's lines come: strings are overwritten, fields are
    merged, lists are appended to. */
module Startup {
  import opened Options
  import opened OrderedMap
  import opened Text
  import opened StoreSpec
  import opened StoreFacts
  import opened StoreRelations
  import opened CommandParser
  import opened LogReplay
  import opened Printing
  import opened Compaction
  import opened Rebuild
  import opened Dumping
  import opened Restore
  import Conservation
  import Expiry

  /** `w` is what the lines of a key that held `v` make of what stood there before. */
  predicate Stands(before: Option<Value>, w: Value, v: Value) {
    match v
    case Str(_) => w == v
    case List(l) =>
      if before.None? then w == v
      else if before.value.List? then w == List(before.value.elems + l) else w == before.value
    case Hash(h) =>
      if before.None? then w.Hash? && w.fields.at == h.at
      else if before.value.Hash? then w.Hash? && w.fields.at == before.value.fields.at + h.at
      else w == before.value
  }

  /** The store `r` with the lines of the first `n` keys of `p` replayed on top. */
  ghost predicate Overlaid(u: State, r: State, p: State, t: int, n: nat) {
    && u.Valid() && FreshAt(u, t) && n <= |p.values.keys| && u.capacity == r.capacity
    && (forall k :: u.Has(k) <==> r.Has(k) || k in p.values.keys[..n])
    && (forall k :: k in p.values.keys[..n] ==> p.Has(k) && StandsAt(u, r, p, k))
    && (forall k :: r.Has(k) && k !in p.values.keys[..n] ==> u.Lookup(k) == r.Lookup(k))
  }

  predicate StandsAt(u: State, r: State, p: State, k: string) {
    u.Has(k) && p.Has(k) && Stands(r.Lookup(k), u.values.at[k], p.values.at[k])
  }

  // ----- The lines of one key -----

  /** `u` is `r` with one key's value replaced. */
  ghost predicate Replaced(u: State, r: State, t: int, k: string, w: Value) {
    u.Valid() && FreshAt(u, t) && u.capacity == r.capacity && u.values.at == r.values.at[k := w]
  }

  /** An act that writes a key, or leaves it because it is of another kind. */
  lemma {:induction false} ActReplaces(r: State, t: int, k: string, act: Act, w: Value)
    requires r.Valid() && FreshAt(r, t) && !Full(r, k)
    requires var e := EffectOf(r, t, k, act);
             && !e.change.Drop? && (e.ttl.SetTtl? ==> e.ttl.at > t)
             && (if e.change.Write? then e.change.value == w else r.Has(k) && r.values.at[k] == w)
    ensures Replaced(KeyStep(r, t, k, act).0, r, t, k, w)
  {
    hide State.Valid, Commit, Meaning;
    var e := EffectOf(r, t, k, act);
    FreshGate(r, t, k);
    KeyStepValid(r, t, k, act);
    EffectSane(r, t, k, act);
    CommitInPlace(r, t, k, e);
    CommitCapacity(r, t, k, e);
  }

  lemma {:induction false} ReplacedValid(u: State, r: State, t: int, k: string, w: Value)
    requires Replaced(u, r, t, k, w)
    ensures u.Valid() && FreshAt(u, t) && u.Has(k) && u.values.at[k] == w && !Full(u, k)
  {
    hide State.Valid, FreshAt;
  }

  lemma {:induction false} ReplacedTwice(x: State, u: State, r: State, t: int, k: string, w: Value)
    requires Replaced(u, r, t, k, w) && Replaced(x, u, t, k, w)
    ensures Replaced(x, r, t, k, w)
  {
    hide State.Valid, FreshAt;
  }

  lemma {:induction false} ExpireEffect(r: State, t: int, k: string, seconds: int)
    requires r.Has(k)
    ensures var e := EffectOf(r, t, k, Act.Expire(seconds));
            e.change.Leave? && e.ttl == SetTtl(t + seconds * 1000)
  {
  }

  /** A container's line, and the EXPIRE line if it has a deadline. */
  lemma {:induction false} ContainerReplaces(r: State, p: State, now: int, t: int, k: string,
                                             line: string, act: Act, w: Value)
    requires Printable(p, now) && p.Has(k) && r.Valid() && FreshAt(r, t) && !Full(r, k)
    requires Parse(line) == Parsed(OnData(k, act)) && !act.Get?
    requires var e := EffectOf(r, t, k, act);
             && !e.change.Drop? && e.ttl.KeepTtl?
             && (if e.change.Write? then e.change.value == w else r.Has(k) && r.values.at[k] == w)
    ensures Replaced(Replay(r, t, [line] + ExpireLine(k, TtlOf(p, now, k))), r, t, k, w)
  {
    hide State.Valid, Parse, IsToken, KeyStep, IntText, TtlOf, EffectOf, Printable, Replay, ReplayLine;
    hide FreshAt, Replaced;
    var seconds := TtlOf(p, now, k);
    TtlBounds(p, now, t, k);
    ReplayAct(r, t, line, k, act);
    ActReplaces(r, t, k, act, w);
    var u := KeyStep(r, t, k, act).0;
    ReplayOne(r, t, line);
    if seconds > 0 {
      HeldTokens(p, now, k);
      var expire := "EXPIRE " + k + " " + IntText(seconds);
      ParseExpireLine(k, seconds);
      ReplayTwo(r, t, line, expire);
      ReplayAct(u, t, expire, k, Act.Expire(seconds));
      ReplacedValid(u, r, t, k, w);
      ExpireEffect(u, t, k, seconds);
      ActReplaces(u, t, k, Act.Expire(seconds), w);
      ReplacedTwice(KeyStep(u, t, k, Act.Expire(seconds)).0, u, r, t, k, w);
    } else {
      assert [line] + ExpireLine(k, seconds) == [line];
    }
  }

  lemma {:induction false} StringReplaces(r: State, p: State, now: int, t: int, k: string)
    requires Printable(p, now) && p.Has(k) && p.values.at[k].Str? && r.Valid() && FreshAt(r, t) && !Full(r, k)
    ensures Replaced(Replay(r, t, LinesFor(k, p.values.at[k], TtlOf(p, now, k))), r, t, k, p.values.at[k])
  {
    hide State.Valid, Parse, IsToken, KeyStep, IntText, TtlOf, Printable, Replay, ReplayLine, FreshAt, Replaced;
    var x, seconds := p.values.at[k].text, TtlOf(p, now, k);
    TtlBounds(p, now, t, k);
    HeldTokens(p, now, k);
    var act := Act.Set(x, if seconds > 0 then Some(seconds) else None);
    var line := if seconds > 0 then "SET " + k + " " + x + " EX " + IntText(seconds) else "SET " + k + " " + x;
    if seconds > 0 {
      ParseSetExLine(k, x, seconds);
    } else {
      ParseSetLine(k, x);
    }
    assert LinesFor(k, p.values.at[k], seconds) == [line];
    ReplayOne(r, t, line);
    ReplayAct(r, t, line, k, act);
    ActReplaces(r, t, k, act, Str(x));
  }

  /** Setting fields in two hashes, one of which holds what the other does and more beneath it. */
  lemma {:induction false} PutAllMerges(beneath: map<string, string>, g: OMap<string>, e: OMap<string>,
                                        pairs: seq<(string, string)>)
    requires g.at == beneath + e.at
    ensures PutAll(g, pairs).at == beneath + PutAll(e, pairs).at
    decreases pairs
  {
    if pairs != [] {
      var (f, x) := pairs[0];
      assert (beneath + e.at)[f := x] == beneath + e.at[f := x];
      PutAllMerges(beneath, g.Put(f, x), e.Put(f, x), pairs[1..]);
    }
  }

  /** Setting the fields of one hash in another merges them. */
  lemma {:induction false} FieldsMerge(g: OMap<string>, h: OMap<string>)
    requires h.Valid()
    ensures forall i :: 0 <= i < |h.keys| ==> h.keys[i] in h.at
    ensures PutAll(g, FieldPairs(h.keys, h.at)).at == g.at + h.at
  {
    hide PutAll;
    HashRebuilt(h);
    assert g.at == g.at + map[];
    PutAllMerges(g.at, g, OMap([], map[]), FieldPairs(h.keys, h.at));
  }

  /** Pushing and setting fields, whatever stands at the key. */
  lemma {:induction false} PushEffect(r: State, t: int, k: string, l: seq<string>)
    ensures var e := EffectOf(r, t, k, Act.RPush(l));
            && e.ttl.KeepTtl? && !e.change.Drop?
            && (if r.Has(k) && !r.values.at[k].List? then e.change.Leave?
                else e.change == Write(List((if r.Has(k) then r.values.at[k].elems else []) + l)))
  {
    assert [] + l == l;
  }

  lemma {:induction false} FieldsEffect(r: State, t: int, k: string, pairs: seq<(string, string)>)
    ensures var e := EffectOf(r, t, k, Act.HSet(pairs));
            && e.ttl.KeepTtl? && !e.change.Drop?
            && (if r.Has(k) && !r.values.at[k].Hash? then e.change.Leave?
                else
                  var h := if r.Has(k) then r.values.at[k].fields else OMap([], map[]);
                  e.change == Write(Hash(PutAll(h, pairs))))
  {
    hide PutAll;
  }

  /** The lines of one key of `p`, whatever stands there before. */
  lemma {:induction false} KeyReplaces(r: State, p: State, now: int, t: int, k: string) returns (w: Value)
    requires Printable(p, now) && p.Has(k) && r.Valid() && FreshAt(r, t) && !Full(r, k)
    ensures Replaced(Replay(r, t, LinesFor(k, p.values.at[k], TtlOf(p, now, k))), r, t, k, w)
    ensures Stands(r.Lookup(k), w, p.values.at[k])
  {
    hide State.Valid, Parse, IsToken, Printable, Replay, EffectOf, TtlOf, ExpireLine, PutAll, Join, FreshAt, Replaced;
    hide StoreSpec.Flat;
    PrintableValid(p, now);
    var v := p.values.at[k];
    HeldTokens(p, now, k);
    if v.Str? {
      StringReplaces(r, p, now, t, k);
      w := v;
    } else if v.List? {
      ParsePushLine(k, v.elems);
      PushEffect(r, t, k, v.elems);
      var e := EffectOf(r, t, k, Act.RPush(v.elems));
      w := if e.change.Write? then e.change.value else r.values.at[k];
      ContainerReplaces(r, p, now, t, k, "RPUSH " + k + " " + Join(v.elems), Act.RPush(v.elems), w);
      assert [] + v.elems == v.elems;
    } else {
      HashFields(p, k);
      ParseHashLine(k, v.fields);
      var pairs := FieldPairs(v.fields.keys, v.fields.at);
      FieldsEffect(r, t, k, pairs);
      var g := if r.Has(k) && r.values.at[k].Hash? then r.values.at[k].fields else OMap([], map[]);
      FieldsMerge(g, v.fields);
      var e := EffectOf(r, t, k, Act.HSet(pairs));
      w := if e.change.Write? then e.change.value else r.values.at[k];
      ContainerReplaces(r, p, now, t, k, "HSET " + k + " " + Join(StoreSpec.Flat(v.fields.keys, v.fields.at)),
                        Act.HSet(pairs), w);
      assert map[] + v.fields.at == v.fields.at;
    }
  }

  // ----- The whole file -----

  lemma {:induction false} OverlaidValid(u: State, r: State, p: State, t: int, n: nat)
    requires Overlaid(u, r, p, t, n)
    ensures u.Valid() && FreshAt(u, t) && u.capacity == r.capacity
    ensures forall k :: k !in p.values.keys[..n] ==> u.Lookup(k) == r.Lookup(k)
    ensures forall k :: u.Has(k) ==> r.Has(k) || k in p.values.keys[..n]
  {
    hide State.Valid, FreshAt, StandsAt;
  }

  /** There is room for whatever comes, as long as both stores' keys fit together. */
  lemma {:induction false} RoomLeft(u: State, r: State, p: State, n: nat, k: string)
    requires u.Valid() && p.Valid() && n <= |p.values.keys| && k in p.values.keys
    requires forall x :: u.Has(x) ==> r.Has(x) || x in p.values.keys[..n]
    requires |r.values.at.Keys + p.values.at.Keys| <= u.capacity
    ensures !Full(u, k)
  {
    Listed(p);
    SizeIsKeys(u.values);
    if !u.Has(k) {
      hide State.Valid;
      var all := r.values.at.Keys + p.values.at.Keys;
      forall x | u.Has(x) ensures x in all - {k} {
        if x in p.values.keys[..n] { assert x in p.values.keys; }
      }
      Expiry.SubsetSizeLe(u.values.at.Keys, all - {k});
      assert |all - {k}| == |all| - 1;
    }
  }

  /** Replacing one key's value moves the overlay on by that key. */
  lemma {:induction false} OverlayNext(u: State, x: State, r: State, p: State, t: int, n: nat, w: Value)
    requires Overlaid(u, r, p, t, n) && p.Valid() && n < |p.values.keys|
    requires Replaced(x, u, t, p.values.keys[n], w) && p.Has(p.values.keys[n])
    requires Stands(r.Lookup(p.values.keys[n]), w, p.values.at[p.values.keys[n]])
    ensures Overlaid(x, r, p, t, n + 1)
  {
    hide State.Valid, Stands, FreshAt;
    var k, done := p.values.keys[n], p.values.keys[..n];
    NewKey(p, n);
    assert p.values.keys[..n + 1] == done + [k];
    forall y | y in p.values.keys[..n + 1] ensures p.Has(y) && StandsAt(x, r, p, y) {
      if y != k { assert y in done && StandsAt(u, r, p, y); }
    }
  }

  lemma {:induction false} NewKey(p: State, n: nat)
    requires p.Valid() && n < |p.values.keys|
    ensures p.values.keys[n] !in p.values.keys[..n]
  {
  }

  lemma {:induction false} OverlayPrefix(r: State, p: State, now: int, t: int, n: nat)
    requires Printable(p, now) && r.Valid() && FreshAt(r, t) && n <= |p.values.keys|
    requires |r.values.at.Keys + p.values.at.Keys| <= r.capacity
    requires forall k :: k in p.values.keys ==> p.Has(k)
    ensures Overlaid(Replay(r, t, LinesForAll(p, now, p.values.keys[..n])), r, p, t, n)
    decreases n
  {
    hide Printable, LinesFor, State.Valid, Replay, TtlOf, FreshAt;
    if n == 0 {
      NothingReplayed(r, p, now, t);
    } else {
      hide Overlaid, Replaced, Stands, Full;
      var k, before := p.values.keys[n - 1], p.values.keys[..n - 1];
      OverlayPrefix(r, p, now, t, n - 1);
      assert k in p.values.keys;
      PrintableValid(p, now);
      var u := Replay(r, t, LinesForAll(p, now, before));
      OverlaidValid(u, r, p, t, n - 1);
      RoomLeft(u, r, p, n - 1, k);
      NewKey(p, n - 1);
      var w := KeyReplaces(u, p, now, t, k);
      assert p.values.keys[..n][..n - 1] == before;
      ReplayAppend(r, t, LinesForAll(p, now, before), LinesFor(k, p.values.at[k], TtlOf(p, now, k)));
      OverlayNext(u, Replay(u, t, LinesFor(k, p.values.at[k], TtlOf(p, now, k))), r, p, t, n - 1, w);
    }
  }

  lemma {:induction false} NothingReplayed(r: State, p: State, now: int, t: int)
    ensures Replay(r, t, LinesForAll(p, now, p.values.keys[..0])) == r
  {
  }

  // ----- When it gives the data back -----

  /** The snapshot's key disappears under the file's lines for it: the file has it, not as a list, and as
      a hash only if the snapshot's is a hash without a further field. */
  predicate Absorbed(a: Value, v: Option<Value>) {
    v.Some? &&
    match v.value
    case Str(_) => true
    case List(_) => false
    case Hash(h) => a.Hash? && a.fields.at.Keys <= h.at.Keys
  }

  ghost predicate AllAbsorbed(r: State, p: State) {
    forall k :: k in r.values.at ==> Absorbed(r.values.at[k], p.Lookup(k))
  }

  /** Startup, exactly: replay the compacted file of one store on top of any other, such as a snapshot
      taken earlier or later, with room for the keys of both. Strings are overwritten, fields merged, lists
      appended to, a key of another kind stays what it was, and so does a key that the file has not; the
      data is that of the compacted store if and only if every key that was there is absorbed. */
  lemma {:induction false} StartupExact(p: State, r: State, now: int, t: int)
    requires Printable(p, now) && r.Valid() && FreshAt(r, t) && Conservation.NoneEmpty(r)
    requires |r.values.at.Keys + p.values.at.Keys| <= r.capacity
    ensures var u := Replay(r, t, LinesForAll(p, now, p.values.keys));
            && u.values.at.Keys == r.values.at.Keys + p.values.at.Keys
            && (forall k :: k in p.values.at ==> StandsAt(u, r, p, k))
            && (forall k :: r.Has(k) && !p.Has(k) ==> u.Lookup(k) == r.Lookup(k))
            && (SameAsMaps(u, p) <==> AllAbsorbed(r, p))
  {
    hide State.Valid, Replay, TtlOf, LinesFor, FreshAt, Stands, AllAbsorbed, SameAsMaps, LinesForAll;
    PrintableParts(p, now);
    OverlayPrefix(r, p, now, t, |p.values.keys|);
    hide Printable, Overlaid, StandsAt;
    assert p.values.keys[..|p.values.keys|] == p.values.keys;
    var u := Replay(r, t, LinesForAll(p, now, p.values.keys));
    OverlaidWhole(u, r, p, t);
    AbsorbedExact(u, r, p);
  }

  lemma {:induction false} OverlaidWhole(u: State, r: State, p: State, t: int)
    requires Overlaid(u, r, p, t, |p.values.keys|) && forall k :: k in p.values.keys <==> p.Has(k)
    ensures u.values.at.Keys == r.values.at.Keys + p.values.at.Keys
    ensures forall k :: k in p.values.at ==> StandsAt(u, r, p, k)
    ensures forall k :: r.Has(k) && !p.Has(k) ==> u.Lookup(k) == r.Lookup(k)
  {
    hide State.Valid, FreshAt, StandsAt;
    assert p.values.keys[..|p.values.keys|] == p.values.keys;
    assert forall k :: u.Has(k) <==> k in r.values.at.Keys + p.values.at.Keys;
  }

  lemma {:induction false} PrintableParts(p: State, now: int)
    requires Printable(p, now)
    ensures p.Valid() && Conservation.NoneEmpty(p) && forall k :: k in p.values.keys <==> p.Has(k)
  {
    Listed(p);
  }

  lemma {:induction false} AbsorbedExact(u: State, r: State, p: State)
    requires u.values.at.Keys == r.values.at.Keys + p.values.at.Keys
    requires forall k :: k in p.values.at ==> StandsAt(u, r, p, k)
    requires Conservation.NoneEmpty(r)
    ensures SameAsMaps(u, p) <==> AllAbsorbed(r, p)
  {
    hide Stands, Absorbed, SameAsMap, Conservation.Nonempty;
    forall k | k in p.values.at ensures
      SameAsMap(u.values.at[k], p.values.at[k]) <==> r.Has(k) ==> Absorbed(r.values.at[k], p.Lookup(k))
    {
      assert StandsAt(u, r, p, k);
      KeyExact(r.Lookup(k), u.values.at[k], p.values.at[k]);
    }
    if SameAsMaps(u, p) {
      forall k | k in r.values.at ensures Absorbed(r.values.at[k], p.Lookup(k)) {
        assert k in u.values.at.Keys;
      }
    }
    if AllAbsorbed(r, p) {
      forall k | k in r.values.at ensures k in p.values.at {
        AbsorbedHeld(r.values.at[k], p.Lookup(k));
      }
      assert u.values.at.Keys == p.values.at.Keys;
    }
  }

  lemma {:induction false} AbsorbedHeld(a: Value, v: Option<Value>)
    requires Absorbed(a, v)
    ensures v.Some?
  {
  }

  lemma {:induction false} KeyExact(before: Option<Value>, w: Value, v: Value)
    requires Stands(before, w, v) && (before.Some? ==> Conservation.Nonempty(before.value))
    ensures SameAsMap(w, v) <==> before.Some? ==> Absorbed(before.value, Some(v))
  {
    if before.Some? && v.List? && before.value.List? {
      assert |before.value.elems + v.elems| > |v.elems|;
    }
    if before.Some? && v.Hash? && before.value.Hash? {
      var g, h := before.value.fields.at, v.fields.at;
      assert g + h == h <==> g.Keys <= h.Keys by {
        if g.Keys <= h.Keys { assert g + h == h; } else { assert (g + h).Keys == g.Keys + h.Keys; }
      }
    }
  }

  ghost predicate NoLists(p: State) {
    forall k :: k in p.values.at ==> !p.values.at[k].List?
  }

  /** On top of its own snapshot a compacted file gives the data back if and only if no key holds a list. */
  lemma {:induction false} OwnAbsorbed(p: State)
    ensures AllAbsorbed(p, p) <==> NoLists(p)
  {
    forall k | k in p.values.at ensures Absorbed(p.values.at[k], p.Lookup(k)) <==> !p.values.at[k].List? {}
  }

  // ----- From the two files -----

  lemma {:induction false} RestoredFresh(p: State, now: int, c: nat, t: int, records: seq<Record>)
    requires p.Valid() && Reads(records, DumpOf(p, now)) && |records| <= c && c >= 1
    requires forall k :: p.Has(k) ==> !p.ttl.IsExpired(k, now)
    ensures RestoreAll(Empty(c), t, records).Valid() && FreshAt(RestoreAll(Empty(c), t, records), t)
    ensures RestoreAll(Empty(c), t, records).capacity == c
  {
    hide State.Valid, Reads, RestoreAll, DumpOf;
    DumpRestored(p, now, c, t, records);
    var r := RestoreAll(Empty(c), t, records);
    forall k | k in r.ttl.deadlines ensures r.ttl.deadlines[k] > t {
      TimedHeld(r, k);
      assert RestoredKey(r, p, now, t, k);
      RestoredTtl(r, p, now, t, k);
    }
    EmptyFresh(c, t);
    RestoreCapacity(Empty(c), t, records);
  }

  lemma {:induction false} RestoreCapacity(s: State, t: int, records: seq<Record>)
    requires s.Valid()
    ensures RestoreAll(s, t, records).Valid() && RestoreAll(s, t, records).capacity == s.capacity
  {
    hide State.Valid, KeyStep;
    if records != [] {
      var n := |records| - 1;
      var u, e := RestoreAll(s, t, records[..n]), records[n];
      RestoreCapacity(s, t, records[..n]);
      KeyStepValid(u, t, e.key, ActOf(e));
      if e.ttl.Some? { KeyStepValid(KeyStep(u, t, e.key, ActOf(e)).0, t, e.key, Act.Expire(e.ttl.value)); }
    }
  }

  /** Hashes compared as maps, the same keys are absorbed, and nothing is empty that was not. */
  lemma {:induction false} SameAbsorbed(r: State, q: State, p: State)
    requires SameAsMaps(r, q) && r.Valid() && Conservation.NoneEmpty(q) && q.Valid()
    ensures AllAbsorbed(r, p) <==> AllAbsorbed(q, p)
    ensures Conservation.NoneEmpty(r) && r.values.at.Keys == q.values.at.Keys
  {
    HashesListed(r);
    HashesListed(q);
    hide State.Valid;
    forall k | k in r.values.at
      ensures Conservation.Nonempty(r.values.at[k])
      ensures Absorbed(r.values.at[k], p.Lookup(k)) <==> Absorbed(q.values.at[k], p.Lookup(k))
    {
      assert SameAsMap(r.values.at[k], q.values.at[k]);
    }
  }

  lemma {:induction false} HashesListed(s: State)
    requires s.Valid()
    ensures forall k :: k in s.values.at && s.values.at[k].Hash? ==>
              (s.values.at[k].fields.keys == [] <==> s.values.at[k].fields.at == map[])
  {
    forall k | k in s.values.at && s.values.at[k].Hash?
      ensures s.values.at[k].fields.keys == [] <==> s.values.at[k].fields.at == map[]
    {
      var h := s.values.at[k].fields;
      assert h.Valid();
      if h.keys != [] { assert h.keys[0] in h.keys; }
    }
  }

  /** The whole restart: the dump of one store and the compacted file of another, both read at startup. */
  lemma {:induction false} RestartExact(q: State, earlier: int, p: State, now: int, c: nat, t: int,
                                        records: seq<Record>)
    requires Printable(q, earlier) && NoProto(q) && Reads(records, DumpOf(q, earlier)) && |records| <= c && c >= 1
    requires Printable(p, now) && |q.values.at.Keys + p.values.at.Keys| <= c
    ensures p.Valid()
    ensures SameAsMaps(Replay(RestoreAll(Empty(c), t, records), t, Compact(p, now)), p) <==> AllAbsorbed(q, p)
  {
    hide State.Valid, Reads, RestoreAll, Replay, DumpOf, NoProto, AllAbsorbed, SameAsMaps, Storable, Purge;
    PrintableParts(q, earlier);
    PrintableParts(p, now);
    RestoredFresh(q, earlier, c, t, records);
    RoundTripExact(q, earlier, c, t, records);
    var r := RestoreAll(Empty(c), t, records);
    SameAbsorbed(r, q, p);
    StartupExact(p, r, now, t);
    forall k | k in p.ttl.deadlines ensures p.ttl.deadlines[k] > now {
      DeadlineAhead(p, now, k);
    }
    PurgeFresh(p, now, p.values.keys);
  }
}
