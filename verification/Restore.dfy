/** Restoring a dump, in whatever order its entries are read. */
module Restore {
  import opened Options
  import opened Sequences
  import opened OrderedMap
  import opened StoreSpec
  import opened StoreFacts
  import opened StoreRelations
  import opened Dumping
  import opened Persistence
  import Rebuild
  import Expiry

  /** A dump entry as it is read: the properties of an object come in some order. */
  datatype Loaded = LoadedText(text: string) | LoadedList(elems: seq<string>) | LoadedHash(pairs: seq<(string, string)>)

  datatype Record = Record(key: string, value: Loaded, ttl: Option<int>)

  predicate Skipped(e: Record) {
    e.ttl.Some? && e.ttl.value <= 0
  }

  function ActOf(e: Record): Act {
    match e.value
    case LoadedText(x) => Act.Set(x, e.ttl)
    case LoadedList(l) => Act.RPush(l)
    case LoadedHash(pairs) => Act.HSet(pairs)
  }

  function RestoreRecord(s: State, t: int, e: Record): State {
    if Skipped(e) then s
    else
      var u := KeyStep(s, t, e.key, ActOf(e)).0;
      if e.value.LoadedText? || e.ttl.None? then u
      else KeyStep(u, t, e.key, Act.Expire(e.ttl.value)).0
  }

  function RestoreAll(s: State, t: int, records: seq<Record>): State {
    if records == [] then s
    else RestoreRecord(RestoreAll(s, t, records[..|records| - 1]), t, records[|records| - 1])
  }

  function Names(records: seq<Record>): (r: seq<string>)
    ensures |r| == |records| && forall i :: 0 <= i < |r| ==> r[i] == records[i].key
  {
    seq(|records|, i requires 0 <= i < |records| => records[i].key)
  }

  function Kept(records: seq<Record>): (r: seq<Record>)
    ensures forall e :: e in r <==> e in records && !Skipped(e)
  {
    if records == [] then []
    else
      var n := |records| - 1;
      assert records == records[..n] + [records[n]];
      Kept(records[..n]) + if Skipped(records[n]) then [] else [records[n]]
  }

  /** An entry without time left is passed over; any other is there once it has been read. */
  lemma {:induction false} EntryTaken(s: State, t: int, e: Record)
    requires s.Valid() && (e.value.LoadedText? || !s.Live(e.key, t))
    ensures e.ttl.Some? && e.ttl.value <= 0 ==> RestoreRecord(s, t, e) == s
    ensures e.ttl.None? || e.ttl.value > 0 ==> RestoreRecord(s, t, e).Live(e.key, t)
  {
    if !(e.ttl.Some? && e.ttl.value <= 0) {
      hide State.Valid, KeyStep;
      EntryWritten(s, t, e);
      if !e.value.LoadedText? && e.ttl.Some? {
        EntryExpires(KeyStep(s, t, e.key, ActOf(e)).0, t, e.key, e.ttl.value);
      }
    }
  }

  lemma {:induction false} EntryWritten(s: State, t: int, e: Record)
    requires s.Valid() && (e.value.LoadedText? || !s.Live(e.key, t)) && (e.ttl.Some? ==> e.ttl.value > 0)
    ensures var u := KeyStep(s, t, e.key, ActOf(e)).0;
            u.Valid() && u.Live(e.key, t)
  {
    hide State.Valid, Commit, PutAll, Reverse, Gate, Reserve, OMap.Put, Restricts;
    var k, g := e.key, Gate(s, t, e.key);
    GateValid(s, t, k);
    GateLive(s, t, k);
    if !g.Has(k) { Missing(g, k); }
    KeyStepValid(s, t, k, ActOf(e));
    var f := EffectOf(g, t, k, ActOf(e));
    EffectSane(g, t, k, ActOf(e));
    CommitAfterReserve(g, t, k, f);
    ReserveRestricts(g, t, k);
    var r := Reserve(g, t, k);
    if !r.Has(k) { Missing(r, k); }
    CommitInPlace(r, t, k, f);
  }

  lemma {:induction false} EntryExpires(u: State, t: int, k: string, seconds: int)
    requires u.Valid() && u.Live(k, t) && seconds > 0
    ensures KeyStep(u, t, k, Act.Expire(seconds)).0.Live(k, t)
  {
    hide State.Valid, Commit;
    var e := EffectOf(u, t, k, Act.Expire(seconds));
    GateLive(u, t, k);
    EffectSane(u, t, k, Act.Expire(seconds));
    CommitInPlace(u, t, k, e);
  }

  /** Skipped entries leave no trace. */
  lemma {:induction false} RestoreKept(s: State, t: int, records: seq<Record>)
    ensures RestoreAll(s, t, records) == RestoreAll(s, t, Kept(records))
  {
    hide RestoreRecord;
    if records != [] {
      var n := |records| - 1;
      var before := Kept(records[..n]);
      RestoreKept(s, t, records[..n]);
      if Skipped(records[n]) {
        SkipRecord(RestoreAll(s, t, records[..n]), t, records[n]);
        assert Kept(records) == before + [] == before;
      } else {
        assert Kept(records) == before + [records[n]];
        assert (before + [records[n]])[..|before|] == before;
      }
    }
  }

  lemma {:induction false} SkipRecord(s: State, t: int, e: Record)
    requires Skipped(e)
    ensures RestoreRecord(s, t, e) == s
  {
  }

  // ----- One entry after the other -----

  /** The value that an entry writes onto a missing key. */
  function ValueOf(l: Loaded): Value {
    match l
    case LoadedText(x) => Str(x)
    case LoadedList(xs) => List(xs)
    case LoadedHash(pairs) => Hash(PutAll(OMap([], map[]), pairs))
  }

  function DueAt(e: Record, t: int): Option<int> {
    if e.ttl.Some? then Some(t + e.ttl.value * 1000) else None
  }

  ghost predicate Present(r: State, t: int, e: Record) {
    r.Lookup(e.key) == Some(ValueOf(e.value)) && r.Deadline(e.key) == DueAt(e, t)
  }

  /** `r` holds exactly the entries from `from` to `n`, in that order, the first ones evicted. */
  ghost predicate Window(r: State, t: int, records: seq<Record>, from: nat, n: nat) {
    && r.Valid() && from <= n <= |records|
    && r.values.keys == Names(records)[from..n]
    && r.recency == Reverse(Names(records)[from..n])
    && (forall i :: from <= i < n ==> Present(r, t, records[i]))
    && r.expired == [] && r.evicted == Names(records)[..from]
  }

  ghost predicate Restorable(records: seq<Record>) {
    NoDup(Names(records)) && forall i :: 0 <= i < |records| ==> !Skipped(records[i])
  }

  lemma {:induction false} WindowFacts(r: State, t: int, records: seq<Record>, from: nat, n: nat)
    requires Window(r, t, records, from, n) && Restorable(records)
    ensures r.Valid() && |r.values.keys| == n - from <= r.capacity
    ensures n < |records| ==> !r.Has(records[n].key)
    ensures forall i :: from <= i < n ==> r.Has(records[i].key) && !r.ttl.IsExpired(records[i].key, t)
  {
  }

  lemma {:induction false} PresentSame(u: State, q: State, t: int, e: Record)
    requires Present(q, t, e) && u.Lookup(e.key) == q.Lookup(e.key) && u.Deadline(e.key) == q.Deadline(e.key)
    ensures Present(u, t, e)
  {
  }

  /** Making room takes the first entry out of a full window. */
  lemma {:induction false} WindowReserve(r: State, t: int, records: seq<Record>, from: nat, n: nat)
    requires Window(r, t, records, from, n) && Restorable(records) && n < |records| && n - from == r.capacity
    ensures Window(Reserve(r, t, records[n].key), t, records, from + 1, n)
    ensures Reserve(r, t, records[n].key).capacity == r.capacity
  {
    hide State.Valid, Reverse, ValueOf, Skipped, Present, Reserve, Keep, Without, NoDup, Restricts, Agrees, Names;
    WindowFacts(r, t, records, from, n);
    var k, names := records[n].key, Names(records);
    var slice := names[from..n];
    Parts(r);
    SliceNoDup(names, from, n);
    ReverseEnds(slice);
    var victim := slice[0];
    assert victim == records[from].key;
    ReserveVictim(r, t, k, victim);
    WithoutFirst(slice);
    SliceTail(names, from, n);
    WithoutLast(r.recency, victim);
    TakeNext(names, from);
    var q := Reserve(r, t, k);
    assert q.capacity == r.capacity by {
      ReserveRestricts(r, t, k);
      RestrictsAgrees(q, r);
    }
    forall i | from + 1 <= i < n ensures Present(q, t, records[i]) {
      Distinct(names, from, i);
      assert Present(r, t, records[i]);
      PresentLeft(q, r, t, records[i], victim);
    }
  }

  lemma {:induction false} PresentLeft(q: State, r: State, t: int, e: Record, victim: string)
    requires Present(r, t, e) && e.key != victim
    requires q.values.at == r.values.at - {victim} && q.ttl.deadlines == r.ttl.deadlines - {victim}
    ensures Present(q, t, e)
  {
  }

  lemma {:induction false} SliceNoDup(s: seq<string>, from: nat, to: nat)
    requires NoDup(s) && from <= to <= |s|
    ensures NoDup(s[from..to])
  {
  }

  lemma {:induction false} Distinct(s: seq<string>, i: nat, j: nat)
    requires NoDup(s) && i < j < |s|
    ensures s[i] != s[j]
  {
  }

  lemma {:induction false} ReverseEnds(s: seq<string>)
    requires s != []
    ensures Reverse(s) != [] && Reverse(s)[|Reverse(s)| - 1] == s[0]
    ensures Reverse(s)[..|Reverse(s)| - 1] == Reverse(s[1..])
  {
  }

  lemma {:induction false} WithoutFirst(s: seq<string>)
    requires NoDup(s) && s != []
    ensures Without(s, s[0]) == s[1..]
  {
  }

  lemma {:induction false} SliceTail(s: seq<string>, from: nat, to: nat)
    requires from < to <= |s|
    ensures s[from..to] != [] && s[from..to][0] == s[from] && s[from..to][1..] == s[from + 1..to]
  {
  }

  lemma {:induction false} WithoutLast(s: seq<string>, x: string)
    requires NoDup(s) && s != [] && s[|s| - 1] == x
    ensures Without(s, x) == s[..|s| - 1]
  {
    WithoutAt(s, |s| - 1);
  }

  lemma {:induction false} ReserveVictim(r: State, t: int, k: string, victim: string)
    requires r.Valid() && Full(r, k) && r.recency != [] && victim == r.recency[|r.recency| - 1]
    requires r.Has(victim) && !r.ttl.IsExpired(victim, t)
    ensures var q := Reserve(r, t, k);
            && q.Valid() && NoDup(r.recency)
            && q.values.keys == Without(r.values.keys, victim) && q.values.at == r.values.at - {victim}
            && q.recency == Without(r.recency, victim)
            && q.ttl.deadlines == r.ttl.deadlines - {victim}
            && q.expired == r.expired && q.evicted == r.evicted + [victim]
  {
    hide State.Valid, Without, NoDup, RemoveKey;
    RecencyDistinct(r);
    ReserveValid(r, t, k);
    RemoveKeyValid(r, victim);
    RemoveParts(r, victim);
    RemoveLogs(r, victim);
  }

  lemma {:induction false} RemoveLogs(s: State, k: string)
    ensures RemoveKey(s, k).expired == s.expired && RemoveKey(s, k).evicted == s.evicted
  {
  }

  lemma {:induction false} RecencyDistinct(s: State)
    requires s.Valid()
    ensures NoDup(s.recency)
  {
  }

  /** An entry's act on a missing key writes its value; only a string's carries the deadline. */
  lemma {:induction false} RecordEffect(q: State, t: int, e: Record)
    requires !q.Has(e.key) && e.key !in q.ttl.deadlines
    ensures var f := EffectOf(q, t, e.key, ActOf(e));
            && f.change == Write(ValueOf(e.value))
            && f.ttl == (if !e.value.LoadedText? then KeepTtl
                         else if e.ttl.Some? then SetTtl(t + e.ttl.value * 1000) else ClearTtl)
  {
    hide PutAll;
  }

  /** The next entry into a window with room. */
  lemma {:induction false} WindowAdd(q: State, t: int, records: seq<Record>, from: nat, n: nat)
    requires Window(q, t, records, from, n) && Restorable(records) && n < |records| && n - from < q.capacity
    ensures var u := RestoreRecord(q, t, records[n]);
            Window(u, t, records, from, n + 1) && u.capacity == q.capacity
  {
    hide State.Valid, KeyStep, EffectOf, ValueOf, Reverse, Window;
    WindowFacts(q, t, records, from, n);
    var e := records[n];
    var act := ActOf(e);
    Missing(q, e.key);
    RecordEffect(q, t, e);
    Rebuild.AddFresh(q, t, e.key, act, EffectOf(q, t, e.key, act));
    var u := KeyStep(q, t, e.key, act).0;
    if !e.value.LoadedText? && e.ttl.Some? {
      Rebuild.PutHas(q, u, e.key, ValueOf(e.value));
      Rebuild.ExpireFront(u, t, e.key, e.ttl.value, q.recency);
    }
    WindowExtend(q, RestoreRecord(q, t, e), t, records, from, n);
  }

  lemma {:induction false} WindowExtend(q: State, u: State, t: int, records: seq<Record>, from: nat, n: nat)
    requires Window(q, t, records, from, n) && Restorable(records) && n < |records|
    requires u.Valid() && !q.Has(records[n].key)
    requires u.values == q.values.Put(records[n].key, ValueOf(records[n].value))
    requires u.recency == [records[n].key] + q.recency
    requires u.ttl.deadlines == match DueAt(records[n], t)
                                case None => q.ttl.deadlines
                                case Some(at) => q.ttl.deadlines[records[n].key := at]
    requires u.expired == q.expired && u.evicted == q.evicted
    ensures Window(u, t, records, from, n + 1)
  {
    hide State.Valid, Reverse, ValueOf, Present, Skipped;
    Missing(q, records[n].key);
    var names := Names(records);
    assert names[from..n + 1] == names[from..n] + [names[n]];
    ReverseAppend(names[from..n], names[n]);
    forall i | from <= i < n + 1 ensures Present(u, t, records[i]) {
      if i < n {
        assert names[i] != names[n];
        PresentSame(u, q, t, records[i]);
      } else {
        Added(q, u, t, records[n]);
      }
    }
  }

  lemma {:induction false} Added(q: State, u: State, t: int, e: Record)
    requires e.key !in q.ttl.deadlines && u.values == q.values.Put(e.key, ValueOf(e.value))
    requires u.ttl.deadlines == match DueAt(e, t)
                                case None => q.ttl.deadlines
                                case Some(at) => q.ttl.deadlines[e.key := at]
    ensures Present(u, t, e)
  {
  }

  /** Restoring onto a full store is restoring onto the store with room made. */
  lemma {:induction false} RestoreReserved(r: State, t: int, e: Record)
    requires r.Valid() && !r.Has(e.key) && !Skipped(e)
    ensures RestoreRecord(r, t, e) == RestoreRecord(Reserve(r, t, e.key), t, e)
  {
    hide State.Valid, Commit, Reserve, EffectOf, ValueOf;
    var q := Reserve(r, t, e.key);
    var act := ActOf(e);
    Missing(r, e.key);
    RecordEffect(r, t, e);
    CommitAfterReserve(r, t, e.key, EffectOf(r, t, e.key, act));
    Missing(q, e.key);
    SameEffect(r, q, t, e.key, act);
  }

  /** Where the window starts once `n` entries have been restored with capacity `c`. */
  function From(c: nat, n: nat): nat {
    if n <= c then 0 else n - c
  }

  /** Restoring entries of distinct keys into an empty store leaves the last `c` of them, in the
      order they were read, each with its value and a full deadline: the capacity is not bypassed,
      the earlier ones are evicted. */
  lemma {:induction false} RestoreWindow(c: nat, t: int, records: seq<Record>, n: nat)
    requires c >= 1 && Restorable(records) && n <= |records|
    ensures var r := RestoreAll(Empty(c), t, records[..n]);
            Window(r, t, records, From(c, n), n) && r.capacity == c
    decreases n
  {
    hide State.Valid, RestoreRecord, Reserve, Skipped, Window, Names;
    if n == 0 {
      EmptyWindow(c, t, records);
    } else {
      RestoreWindow(c, t, records, n - 1);
      assert records[..n][..n - 1] == records[..n - 1];
      var r, from := RestoreAll(Empty(c), t, records[..n - 1]), From(c, n - 1);
      var e := records[n - 1];
      WindowFacts(r, t, records, from, n - 1);
      if n - 1 - from == c {
        WindowReserve(r, t, records, from, n - 1);
        RestoreReserved(r, t, e);
        WindowAdd(Reserve(r, t, e.key), t, records, from + 1, n - 1);
      } else {
        WindowAdd(r, t, records, from, n - 1);
      }
    }
  }

  lemma {:induction false} EmptyWindow(c: nat, t: int, records: seq<Record>)
    requires c >= 1
    ensures Window(RestoreAll(Empty(c), t, records[..0]), t, records, 0, 0)
    ensures RestoreAll(Empty(c), t, records[..0]).capacity == c
  {
  }

  // ----- The dump and what is restored from it -----

  /** The object's properties, each once, in some order. */
  ghost predicate Lists(pairs: seq<(string, string)>, fields: map<string, string>) {
    && (forall i, j :: 0 <= i < j < |pairs| ==> pairs[i].0 != pairs[j].0)
    && (forall i :: 0 <= i < |pairs| ==> pairs[i].0 in fields && fields[pairs[i].0] == pairs[i].1)
    && (forall f :: f in fields ==> exists i :: 0 <= i < |pairs| && pairs[i].0 == f)
  }

  ghost predicate Loads(l: Loaded, s: Saved) {
    match s
    case SavedText(x) => l == LoadedText(x)
    case SavedList(xs) => l == LoadedList(xs)
    case SavedHash(fields) => l.LoadedHash? && Lists(l.pairs, fields)
  }

  /** The dump's entries, each once, in some order. */
  ghost predicate Reads(records: seq<Record>, d: Dump) {
    && NoDup(Names(records))
    && (forall i :: 0 <= i < |records| ==> records[i].key in d && ReadsEntry(records[i], d[records[i].key]))
    && (forall k :: k in d ==> k in Names(records))
  }

  ghost predicate ReadsEntry(e: Record, s: Serialized) {
    e.ttl == s.ttl && Loads(e.value, s.value)
  }

  /** Setting distinct fields gives exactly those fields. */
  lemma {:induction false} PutAllLists(pairs: seq<(string, string)>, n: nat)
    requires n <= |pairs| && forall i, j :: 0 <= i < j < |pairs| ==> pairs[i].0 != pairs[j].0
    ensures var h := PutAll(OMap([], map[]), pairs[..n]);
            && (forall i :: 0 <= i < n ==> pairs[i].0 in h.at && h.at[pairs[i].0] == pairs[i].1)
            && (forall f :: f in h.at ==> exists i :: 0 <= i < n && pairs[i].0 == f)
    decreases n
  {
    if n == 0 {
      assert pairs[..0] == [];
    } else {
      hide PutAll;
      PutAllLists(pairs, n - 1);
      TakeNext(pairs, n - 1);
      PutAllAppend(OMap([], map[]), pairs[..n - 1], pairs[n - 1]);
      var before, last := PutAll(OMap([], map[]), pairs[..n - 1]), pairs[n - 1];
      var h := before.Put(last.0, last.1);
      forall f | f in h.at ensures exists i :: 0 <= i < n && pairs[i].0 == f {
        if f != last.0 { assert f in before.at; }
      }
    }
  }

  /** What is loaded from a saved value saves as that value. */
  lemma {:induction false} LoadedValue(l: Loaded, v: Value)
    requires Loads(l, SavedOf(v))
    ensures SavedOf(ValueOf(l)) == SavedOf(v)
    ensures match v
            case Hash(h) => ValueOf(l).Hash? && ValueOf(l).fields.at == h.at - {PROTO}
            case _ => ValueOf(l) == v
  {
    hide PutAll, Lists;
    if v.Hash? {
      PutAllMap(l.pairs, v.fields.at - {PROTO});
      assert v.fields.at - {PROTO} - {PROTO} == v.fields.at - {PROTO};
    }
  }

  /** Setting listed fields one by one gives the map they list. */
  lemma {:induction false} PutAllMap(pairs: seq<(string, string)>, fields: map<string, string>)
    requires Lists(pairs, fields)
    ensures PutAll(OMap([], map[]), pairs).at == fields
  {
    hide PutAll;
    PutAllLists(pairs, |pairs|);
    assert pairs[..|pairs|] == pairs;
  }

  /** The same value, hashes compared as maps. */
  predicate SameAsMap(a: Value, b: Value) {
    match b
    case Hash(h) => a.Hash? && a.fields.at == h.at
    case _ => a == b
  }

  /** Every key and value of `p` is in `r`. */
  ghost predicate SameAsMaps(r: State, p: State) {
    r.values.at.Keys == p.values.at.Keys
    && forall k :: k in p.values.at ==> SameAsMap(r.values.at[k], p.values.at[k])
  }

  /** No key and no field bears the one name that a dump loses. */
  ghost predicate NoProto(p: State) {
    PROTO !in p.values.at
    && forall k :: k in p.values.at && p.values.at[k].Hash? ==> PROTO !in p.values.at[k].fields.at
  }

  /** The entry of one key, restored. */
  ghost predicate RestoredKey(r: State, p: State, now: int, t: int, k: string) {
    && r.Has(k) && p.Has(k)
    && SavedOf(r.values.at[k]) == SavedOf(p.values.at[k])
    && (match p.values.at[k]
        case Hash(h) => r.values.at[k].Hash? && r.values.at[k].fields.at == h.at - {PROTO}
        case v => r.values.at[k] == v)
    && r.Deadline(k) == match TtlSaved(p, now, k)
                        case None => None
                        case Some(n) => Some(t + n * 1000)
  }

  lemma {:induction false} ReadsRestorable(p: State, now: int, records: seq<Record>)
    requires p.Valid() && Reads(records, DumpOf(p, now))
    requires forall k :: p.Has(k) ==> !p.ttl.IsExpired(k, now)
    ensures Restorable(records) && |records| <= |p.values.keys|
  {
    hide State.Valid, Loads, SavedOf;
    forall i | 0 <= i < |records| ensures !Skipped(records[i]) {
      assert ReadsEntry(records[i], DumpOf(p, now)[records[i].key]);
      assert p.Has(records[i].key);
    }
    Parts(p);
    NoDupSize(Names(records), DumpOf(p, now).Keys);
    assert DumpOf(p, now).Keys <= p.values.at.Keys;
    Expiry.SubsetSizeLe(DumpOf(p, now).Keys, p.values.at.Keys);
    SizeIsKeys(p.values);
  }

  lemma {:induction false} EntryRestored(r: State, p: State, now: int, t: int, e: Record)
    requires Present(r, t, e) && e.key in DumpOf(p, now) && ReadsEntry(e, DumpOf(p, now)[e.key])
    ensures RestoredKey(r, p, now, t, e.key)
  {
    hide Loads, SavedOf, ValueOf;
    LoadedValue(e.value, p.values.at[e.key]);
  }

  /** The dump and restore round trip: whatever order the entries and the properties are read in,
      restoring the dump of a store with nothing expired into an empty store with room for it gives
      every key but "__proto__" back, evicting nothing. */
  lemma {:induction false} DumpRestored(p: State, now: int, c: nat, t: int, records: seq<Record>)
    requires p.Valid() && Reads(records, DumpOf(p, now)) && |records| <= c && c >= 1
    requires forall k :: p.Has(k) ==> !p.ttl.IsExpired(k, now)
    ensures var r := RestoreAll(Empty(c), t, records);
            && r.Valid() && r.expired == [] && r.evicted == []
            && r.values.at.Keys == p.values.at.Keys - {PROTO}
            && (forall k :: k in r.values.at ==> RestoredKey(r, p, now, t, k))
  {
    hide State.Valid, Present, ReadsEntry, RestoredKey, Skipped, Window, Restorable, RestoreAll, DumpOf, NoDup;
    var n := |records|;
    ReadsRestorable(p, now, records);
    RestoreWindow(c, t, records, n);
    assert records[..n] == records;
    var r := RestoreAll(Empty(c), t, records);
    WholeWindow(r, t, records);
    Listed(r);
    DumpKeys(p, now);
    forall k | k in r.values.at ensures k in DumpOf(p, now) && RestoredKey(r, p, now, t, k) {
      assert k in Names(records);
      var i :| 0 <= i < n && Names(records)[i] == k;
      EntryRestored(r, p, now, t, records[i]);
    }
    forall k | k in DumpOf(p, now) ensures k in r.values.at {
      assert k in Names(records);
    }
  }

  lemma {:induction false} WholeWindow(r: State, t: int, records: seq<Record>)
    requires Window(r, t, records, 0, |records|)
    ensures r.Valid() && r.values.keys == Names(records) && r.expired == [] && r.evicted == []
    ensures forall i :: 0 <= i < |records| ==> Present(r, t, records[i])
  {
  }

  lemma {:induction false} DumpKeys(p: State, now: int)
    ensures DumpOf(p, now).Keys == p.values.at.Keys - {PROTO}
  {
  }

  /** Each remaining time comes back rounded up by less than a second. */
  lemma {:induction false} RestoredTtl(r: State, p: State, now: int, t: int, k: string)
    requires RestoredKey(r, p, now, t, k) && !p.ttl.IsExpired(k, now)
    ensures k in r.ttl.deadlines <==> k in p.ttl.deadlines
    ensures k in p.ttl.deadlines ==>
              p.ttl.deadlines[k] - now <= r.ttl.deadlines[k] - t < p.ttl.deadlines[k] - now + 1000
    ensures TtlSaved(r, t, k) == TtlSaved(p, now, k)
  {
  }

  /** Dumping what was restored gives the same dump: the file still describes the store. */
  lemma {:induction false} DumpStable(p: State, now: int, c: nat, t: int, records: seq<Record>)
    requires p.Valid() && Reads(records, DumpOf(p, now)) && |records| <= c && c >= 1
    requires forall k :: p.Has(k) ==> !p.ttl.IsExpired(k, now)
    ensures var r := RestoreAll(Empty(c), t, records);
            DumpOf(r, t) == DumpOf(p, now) && Describes(DumpOf(p, now), r)
  {
    hide State.Valid, Reads, SavedOf, RestoreAll;
    DumpRestored(p, now, c, t, records);
    var r := RestoreAll(Empty(c), t, records);
    forall k | k in r.values.at
      ensures TtlSaved(r, t, k) == TtlSaved(p, now, k)
      ensures SavedOf(r.values.at[k]) == SavedOf(p.values.at[k])
      ensures k in r.ttl.deadlines ==> r.ttl.deadlines[k] > t
    {
      assert RestoredKey(r, p, now, t, k);
      RestoredTtl(r, p, now, t, k);
    }
    assert DumpOf(r, t) == DumpOf(p, now);
    forall k | k in r.ttl.deadlines ensures r.ttl.deadlines[k] > t {
      TimedHeld(r, k);
    }
    assert DumpedAt(DumpOf(p, now), r, t);
  }

  /** So a manager that has just restored starts synced. */
  lemma {:induction false} RestoredSynced(p: State, now: int, c: nat, t: int, records: seq<Record>)
    requires p.Valid() && Reads(records, DumpOf(p, now)) && |records| <= c && c >= 1
    requires forall k :: p.Has(k) ==> !p.ttl.IsExpired(k, now)
    ensures var r := RestoreAll(Empty(c), t, records);
            Synced(Keeper(r, Snapshot(Some(DumpOf(p, now)), r.dirty, None)))
  {
    hide State.Valid, Reads, DumpOf, Describes, RestoreAll;
    DumpRestored(p, now, c, t, records);
    DumpStable(p, now, c, t, records);
  }

  /** Everything comes back, hashes compared as maps, if and only if no key and no field is called
      "__proto__". */
  lemma {:induction false} RoundTripExact(p: State, now: int, c: nat, t: int, records: seq<Record>)
    requires p.Valid() && Reads(records, DumpOf(p, now)) && |records| <= c && c >= 1
    requires forall k :: p.Has(k) ==> !p.ttl.IsExpired(k, now)
    ensures SameAsMaps(RestoreAll(Empty(c), t, records), p) <==> NoProto(p)
  {
    hide State.Valid, Reads, SavedOf, RestoreAll;
    DumpRestored(p, now, c, t, records);
    var r := RestoreAll(Empty(c), t, records);
    if NoProto(p) {
      forall k | k in p.values.at ensures k in r.values.at && SameAsMap(r.values.at[k], p.values.at[k]) {
        assert RestoredKey(r, p, now, t, k);
      }
    } else if PROTO !in p.values.at {
      var k :| k in p.values.at && p.values.at[k].Hash? && PROTO in p.values.at[k].fields.at;
      assert RestoredKey(r, p, now, t, k);
      assert PROTO !in r.values.at[k].fields.at;
    }
  }
}
