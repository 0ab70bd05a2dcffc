/** Reading the compacted file: the states that can be printed, and what the printed lines parse to. */
module Compaction {
  import opened Options
  import opened Sequences
  import opened OrderedMap
  import opened Text
  import opened StoreSpec
  import opened StoreFacts
  import opened StoreRelations
  import opened CommandParser
  import opened Execution
  import opened LogReplay

  lemma {:induction false} PurgeListed(s: State, now: int)
    requires s.Valid()
    ensures var p := Purge(s, now, s.values.keys);
            && p.Valid()
            && (forall k :: k in p.values.keys ==> p.Has(k))
            && (forall k :: p.Has(k) ==> !p.ttl.IsExpired(k, now))
  {
    hide State.Valid, Keep, Purge;
    var p := Purge(s, now, s.values.keys);
    PurgeRestricts(s, now, s.values.keys);
    RestrictsAgrees(p, s);
    Listed(p);
    Listed(s);
    forall k | p.Has(k) ensures !p.ttl.IsExpired(k, now) {
      assert p.Deadline(k) == s.Deadline(k);
    }
  }

  // ----- Storable states -----

  ghost predicate TokenValue(v: Value) {
    match v
    case Str(x) => IsToken(x)
    case List(l) => AllTokens(l)
    case Hash(h) => forall f :: f in h.at ==> IsToken(f) && IsToken(h.at[f])
  }

  /** Everything held is a token, and no TTL exceeds what the parser accepts. */
  ghost predicate Storable(s: State, now: int) {
    && (forall k :: k in s.values.at ==> IsToken(k) && TokenValue(s.values.at[k]))
    && (forall k :: k in s.ttl.deadlines ==> s.ttl.deadlines[k] - now <= MAX_TTL_SECONDS * 1000)
  }

  lemma {:induction false} PutAllTokens(h: OMap<string>, pairs: seq<(string, string)>)
    requires forall f :: f in h.at ==> IsToken(f) && IsToken(h.at[f])
    requires forall i :: 0 <= i < |pairs| ==> IsToken(pairs[i].0) && IsToken(pairs[i].1)
    ensures TokenValue(Hash(PutAll(h, pairs)))
    decreases pairs
  {
    if pairs != [] {
      hide IsToken;
      PutAllTokens(h.Put(pairs[0].0, pairs[0].1), pairs[1..]);
    }
  }

  lemma {:induction false} RemoveAllTokens(h: OMap<string>, fs: seq<string>)
    requires forall f :: f in h.at ==> IsToken(f) && IsToken(h.at[f])
    ensures TokenValue(Hash(RemoveAll(h, fs)))
    decreases fs
  {
    if fs != [] {
      hide IsToken;
      RemoveAllTokens(h.Remove(fs[0]), fs[1..]);
    }
  }

  lemma {:induction false} ReverseTokens(xs: seq<string>)
    requires AllTokens(xs)
    ensures AllTokens(Reverse(xs))
  {
    hide IsToken;
    forall i | 0 <= i < |Reverse(xs)| ensures IsToken(Reverse(xs)[i]) {
      assert Reverse(xs)[i] in xs;
    }
  }

  /** Acts on token values write token values and grant TTLs within the bound. */
  lemma {:induction false} MeaningStorable(act: Act, now: int, v: Option<Value>, d: Option<int>)
    requires WellFormedAct(act)
    requires v.Some? ==> TokenValue(v.value)
    ensures var e := Meaning(act, now, v, d);
            && (e.change.Write? ==> TokenValue(e.change.value))
            && (e.ttl.SetTtl? ==> e.ttl.at - now <= MAX_TTL_SECONDS * 1000)
  {
    hide IsToken, Slice, Flat;
    match act
    case LPush(xs) => ReverseTokens(xs);
    case HSet(pairs) =>
      PutAllTokens(OMap([], map[]), pairs);
      if v.Some? && v.value.Hash? { PutAllTokens(v.value.fields, pairs); }
    case HDel(fs) =>
      if v.Some? && v.value.Hash? { RemoveAllTokens(v.value.fields, fs); }
    case _ =>
  }

  lemma {:induction false} RestrictStorable(t: State, s: State, now: int)
    requires Restricts(t, s) && t.Valid() && Storable(s, now)
    ensures Storable(t, now)
  {
  }

  lemma {:induction false} StorableLater(s: State, now: int, later: int)
    requires Storable(s, now) && now <= later
    ensures Storable(s, later)
  {
    hide IsToken, TokenValue;
  }

  lemma {:induction false} KeyStepStorable(s: State, now: int, k: string, act: Act)
    requires s.Valid() && Storable(s, now) && IsToken(k) && (WellFormedAct(act) || act.TypeOf?)
    ensures Storable(KeyStep(s, now, k, act).0, now)
  {
    hide State.Valid, IsToken, Keep, TokenValue, Gate, Meaning, WellFormedAct;
    var g := Gate(s, now, k);
    GateRestricts(s, now, k);
    RestrictStorable(g, s, now);
    var e := EffectOf(g, now, k, act);
    EffectSane(g, now, k, act);
    if act.TypeOf? {
      LookOnly(act, now, g.Lookup(k), g.Deadline(k));
    } else {
      MeaningStorable(act, now, g.Lookup(k), g.Deadline(k));
    }
    CommitStorable(g, now, k, e);
  }

  lemma {:induction false} LookOnly(act: Act, now: int, v: Option<Value>, d: Option<int>)
    requires act.TypeOf?
    ensures Meaning(act, now, v, d).change.Leave? && Meaning(act, now, v, d).ttl.KeepTtl?
  {
  }

  lemma {:induction false} CommitStorable(s: State, now: int, k: string, e: Effect)
    requires s.Valid() && Storable(s, now) && IsToken(k) && Sane(e, s.Has(k))
    requires e.change.Write? ==> TokenValue(e.change.value)
    requires e.ttl.SetTtl? ==> e.ttl.at - now <= MAX_TTL_SECONDS * 1000
    ensures Storable(Commit(s, now, k, e), now)
  {
    hide State.Valid, IsToken, Keep, TokenValue, Commit, Sane;
    if e.change.Drop? {
      DropCommits(s, now, k, e);
      RemoveRestricts(s, k);
      RestrictStorable(RemoveKey(s, k), s, now);
    } else if e.change.Write? {
      var r := Reserve(s, now, k);
      CommitAfterReserve(s, now, k, e);
      ReserveRestricts(s, now, k);
      RestrictStorable(r, s, now);
      CommitInPlace(r, now, k, e);
    } else if s.Has(k) {
      CommitInPlace(s, now, k, e);
    } else {
      LeaveMissing(s, now, k, e);
    }
  }

  /** States reached through parsed commands, with a clock that does not run backwards, stay
      storable. */
  lemma {:induction false} ExecuteStorable(s: State, now: int, line: string)
    requires s.Valid() && Storable(s, now) && Parse(line).Parsed?
    ensures Storable(Execute(s, now, Parse(line).command).state, now)
  {
    hide State.Valid, Parse, IsToken, Keep, TokenValue, KeyStep, WellFormedAct, Purge, Storable;
    hide Restricts, ReplyText, Logs, Matching;
    ParsedWellFormed(line);
    var c := Parse(line).command;
    if c.OnData? {
      KeyStepStorable(s, now, c.key, c.act);
      KeyStepStorable(s, now, c.key, TypeOf);
      KeyStepValid(s, now, c.key, TypeOf);
      GetWellFormed();
      KeyStepStorable(KeyStep(s, now, c.key, TypeOf).0, now, c.key, Act.Get);
    } else if c.ListKeys? {
      PurgeRestricts(s, now, s.values.keys);
      RestrictStorable(Purge(s, now, s.values.keys), s, now);
    }
  }

  lemma {:induction false} GetWellFormed()
    ensures WellFormedAct(Act.Get)
  {
  }

  // ----- Reading the lines back -----

  lemma {:induction false} Join3(a: string, b: string, c: string)
    ensures Join([a, b, c]) == a + " " + b + " " + c
  {
    assert [a, b, c][1..] == [b, c] && [b, c][1..] == [c];
    assert Join([c]) == c;
    assert Join([b, c]) == b + " " + c;
    assert a + " " + (b + " " + c) == a + " " + b + " " + c;
  }

  lemma {:induction false} Join5(a: string, b: string, c: string, d: string, e: string)
    ensures Join([a, b, c, d, e]) == a + " " + b + " " + c + " " + d + " " + e
  {
    var tail := d + " " + e;
    JoinAppend([a, b, c], [d, e]);
    Join3(a, b, c);
    assert [a, b, c] + [d, e] == [a, b, c, d, e];
    assert [d, e][1..] == [e] && Join([e]) == e;
    assert Join([d, e]) == tail;
    assert (a + " " + b + " " + c) + " " + tail == a + " " + b + " " + c + " " + d + " " + e;
  }

  lemma {:induction false} ParseSetLine(k: string, x: string)
    requires IsToken(k) && IsToken(x)
    ensures Parse("SET " + k + " " + x) == Parsed(OnData(k, Act.Set(x, None)))
  {
    hide Parse, IsToken, WordOf, Upper, Join;
    PrintedWords();
    ParseJoined(["SET", k, x]);
    Join3("SET", k, x);
    assert "SET" + " " == "SET ";
  }

  lemma {:induction false} ParseSetExLine(k: string, x: string, seconds: int)
    requires IsToken(k) && IsToken(x) && 1 <= seconds <= MAX_TTL_SECONDS
    ensures Parse("SET " + k + " " + x + " EX " + IntText(seconds))
         == Parsed(OnData(k, Act.Set(x, Some(seconds))))
  {
    hide Parse, IsToken, WordOf, Upper, Join, Decimal, ParsePositiveInt;
    var n := Decimal(seconds);
    PrintedWords();
    DecimalIsToken(seconds);
    PositiveRoundTrip(seconds);
    ParseJoined(["SET", k, x, "EX", n]);
    Join5("SET", k, x, "EX", n);
    SetExText(k, x, n);
  }

  lemma {:induction false} SetExText(k: string, x: string, n: string)
    ensures "SET " + k + " " + x + " EX " + n == "SET" + " " + k + " " + x + " " + "EX" + " " + n
  {
  }

  lemma {:induction false} ParseExpireLine(k: string, seconds: int)
    requires IsToken(k) && 1 <= seconds <= MAX_TTL_SECONDS
    ensures Parse("EXPIRE " + k + " " + IntText(seconds)) == Parsed(OnData(k, Act.Expire(seconds)))
  {
    hide Parse, IsToken, WordOf, Upper, Join, Decimal, ParsePositiveInt;
    var n := Decimal(seconds);
    PrintedWords();
    DecimalIsToken(seconds);
    PositiveRoundTrip(seconds);
    ParseJoined(["EXPIRE", k, n]);
    Join3("EXPIRE", k, n);
    assert "EXPIRE" + " " == "EXPIRE ";
  }

  /** A line of a command word, a key, and more tokens. */
  lemma {:induction false} JoinHead(word: string, k: string, rest: seq<string>)
    requires rest != []
    ensures Join([word, k] + rest) == word + " " + k + " " + Join(rest)
  {
  }

  lemma {:induction false} ParsePushLine(k: string, l: seq<string>)
    requires IsToken(k) && l != [] && AllTokens(l)
    ensures Parse("RPUSH " + k + " " + Join(l)) == Parsed(OnData(k, Act.RPush(l)))
  {
    hide Parse, IsToken, WordOf, Upper, Join;
    PrintedWords();
    var ts := ["RPUSH", k] + l;
    assert AllTokens(ts);
    ParseJoined(ts);
    JoinHead("RPUSH", k, l);
    assert "RPUSH" + " " + k + " " + Join(l) == "RPUSH " + k + " " + Join(l);
    assert ts[2..] == l;
  }

  /** The fields and values of a hash, paired. */
  function FieldPairs(fields: seq<string>, at: map<string, string>): (r: seq<(string, string)>)
    requires forall i :: 0 <= i < |fields| ==> fields[i] in at
    ensures |r| == |fields|
    ensures forall i :: 0 <= i < |r| ==> r[i] == (fields[i], at[fields[i]])
  {
    seq(|fields|, i requires 0 <= i < |fields| => (fields[i], at[fields[i]]))
  }

  lemma {:induction false} FlatPairs(fields: seq<string>, at: map<string, string>)
    requires forall i :: 0 <= i < |fields| ==> fields[i] in at
    requires forall f :: f in at ==> IsToken(f) && IsToken(at[f])
    ensures |Flat(fields, at)| == 2 * |fields| && AllTokens(Flat(fields, at))
    ensures Pairs(Flat(fields, at)) == FieldPairs(fields, at)
  {
    if fields != [] {
      hide IsToken, AllTokens;
      FlatPairs(fields[1..], at);
      TwoTokens(fields[0], at[fields[0]], Flat(fields[1..], at));
    }
  }

  lemma {:induction false} TwoTokens(a: string, b: string, rest: seq<string>)
    requires IsToken(a) && IsToken(b) && AllTokens(rest)
    ensures AllTokens([a, b] + rest)
    ensures |[a, b] + rest| == 2 + |rest| && ([a, b] + rest)[2..] == rest
  {
    hide IsToken;
  }

  lemma {:induction false} ParseHashLine(k: string, h: OMap<string>)
    requires IsToken(k) && h.Valid() && h.keys != [] && TokenValue(Hash(h))
    ensures (forall i :: 0 <= i < |h.keys| ==> h.keys[i] in h.at)
    ensures Parse("HSET " + k + " " + Join(Flat(h.keys, h.at)))
         == Parsed(OnData(k, Act.HSet(FieldPairs(h.keys, h.at))))
  {
    hide Parse, IsToken, WordOf, Upper, Join, Flat, Pairs, FieldPairs;
    PrintedWords();
    FlatPairs(h.keys, h.at);
    var flat := Flat(h.keys, h.at);
    var ts := ["HSET", k] + flat;
    assert AllTokens(ts);
    ParseJoined(ts);
    JoinHead("HSET", k, flat);
    assert "HSET" + " " + k + " " + Join(flat) == "HSET " + k + " " + Join(flat);
    assert ts[2..] == flat;
  }

  /** `r` holds the first `n` fields of `h`, in order. */
  ghost predicate Refilled(r: OMap<string>, h: OMap<string>, n: nat) {
    && n <= |h.keys|
    && r.keys == h.keys[..n]
    && (forall f :: f in r.at <==> f in h.keys[..n])
    && (forall f :: f in r.at ==> f in h.at && r.at[f] == h.at[f])
  }

  lemma {:induction false} RefillNext(r: OMap<string>, h: OMap<string>, n: nat)
    requires h.Valid() && n < |h.keys| && h.keys[n] in h.at && Refilled(r, h, n)
    ensures Refilled(r.Put(h.keys[n], h.at[h.keys[n]]), h, n + 1)
  {
  }

  /** Setting a hash's fields in order into an empty hash rebuilds it, order included. */
  lemma {:induction false} RefillHash(h: OMap<string>, n: nat)
    requires h.Valid() && n <= |h.keys|
    requires forall i :: 0 <= i < |h.keys| ==> h.keys[i] in h.at
    ensures Refilled(PutAll(OMap([], map[]), FieldPairs(h.keys, h.at)[..n]), h, n)
    decreases n
  {
    hide OMap.Valid, PutAll, Refilled, FieldPairs;
    if n > 0 {
      var pairs := FieldPairs(h.keys, h.at);
      RefillHash(h, n - 1);
      TakeNext(pairs, n - 1);
      PutAllAppend(OMap([], map[]), pairs[..n - 1], pairs[n - 1]);
      RefillNext(PutAll(OMap([], map[]), pairs[..n - 1]), h, n - 1);
    } else {
      NothingRefilled(h, FieldPairs(h.keys, h.at));
    }
  }

  lemma {:induction false} NothingRefilled(h: OMap<string>, pairs: seq<(string, string)>)
    ensures Refilled(PutAll(OMap([], map[]), pairs[..0]), h, 0)
  {
  }

  lemma {:induction false} HashRebuilt(h: OMap<string>)
    requires h.Valid()
    requires forall i :: 0 <= i < |h.keys| ==> h.keys[i] in h.at
    ensures PutAll(OMap([], map[]), FieldPairs(h.keys, h.at)) == h
  {
    var pairs := FieldPairs(h.keys, h.at);
    RefillHash(h, |h.keys|);
    assert pairs[..|h.keys|] == pairs && h.keys[..|h.keys|] == h.keys;
    assert PutAll(OMap([], map[]), pairs).at == h.at;
  }
}
