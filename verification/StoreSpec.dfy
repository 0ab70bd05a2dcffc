/** What the store's operations mean, as one table: an operation on a key is the lazy-expiry gate,
    then an effect that depends only on the key's own value and deadline, then its commit. */
module StoreSpec {
  import opened Options
  import opened Sequences
  import opened OrderedMap
  import opened Expiry
  import LRU

  datatype Value = Str(text: string) | List(elems: seq<string>) | Hash(fields: OMap<string>)

  /** The fields of a hash form an insertion-ordered map. */
  ghost predicate WellFormed(v: Value) {
    v.Hash? ==> v.fields.Valid()
  }

  datatype Kind = StringKind | ListKind | HashKind

  /** What is done to a key. */
  datatype Act =
    | Get
    | Set(value: string, ttl: Option<int>)
    | Del
    | Expire(seconds: int)
    | Exists
    | Ttl
    | Persist
    | TypeOf
    | LPush(pushed: seq<string>)
    | LPop
    | LRange(start: int, stop: int)
    | RPush(pushed: seq<string>)
    | RPop
    | LLen
    | HSet(pairs: seq<(string, string)>)
    | HGet(field: string)
    | HDel(removed: seq<string>)
    | HGetAll
    | HLen

  datatype Op = OnKey(key: string, act: Act) | Keys(pattern: string) | Sweep(limit: int)

  datatype Outcome =
    | Done
    | Flag(b: bool)
    | Num(n: int)
    | Text(text: Option<string>)
    | Items(items: seq<string>)
    | KindIs(kind: Option<Kind>)
    | WrongType

  datatype State = State(
    capacity: nat,
    values: OMap<Value>,
    recency: seq<string>,
    ttl: Table,
    evictions: nat,
    dirty: nat,
    expired: seq<string>,   // the calls of the expiry listener
    evicted: seq<string>)   // the calls of the eviction listener
  {
    /** The lockstep invariant: values and recency hold the same keys, deadlines a subset, and
        there are never more than `capacity` keys. */
    ghost predicate Valid() {
      && capacity >= 1
      && values.Valid()
      && NoDup(recency)
      && (forall k :: k in recency <==> k in values.at)
      && ttl.Valid()
      && ttl.deadlines.Keys <= values.at.Keys
      && |values.keys| <= capacity
      && evictions == |evicted|
      && (forall k :: k in values.at ==> WellFormed(values.at[k]))
    }

    predicate Has(k: string) { k in values.at }

    function Lookup(k: string): Option<Value> {
      if k in values.at then Some(values.at[k]) else None
    }

    function Deadline(k: string): Option<int> {
      if k in ttl.deadlines then Some(ttl.deadlines[k]) else None
    }

    predicate Live(k: string, now: int) { k in values.at && !ttl.IsExpired(k, now) }
  }

  function Empty(capacity: nat): State {
    State(capacity, OMap([], map[]), [], EMPTY, 0, 0, [], [])
  }

  // ----- Effects -----

  datatype Change = Leave | Write(value: Value) | Drop

  datatype TtlChange = KeepTtl | SetTtl(at: int) | ClearTtl

  datatype Effect = Effect(change: Change, touch: bool, ttl: TtlChange, dirty: nat, outcome: Outcome)

  /** An effect that changes no value and no deadline. */
  function Look(touch: bool, outcome: Outcome): Effect {
    Effect(Leave, touch, KeepTtl, 0, outcome)
  }

  /** Whole seconds left, rounded up, never negative. */
  function Seconds(ms: int): nat {
    if ms <= 0 then 0 else (ms + 999) / 1000
  }

  function KindOf(v: Value): Kind {
    match v
    case Str(_) => StringKind
    case List(_) => ListKind
    case Hash(_) => HashKind
  }

  /** Inclusive bounds, negative ones counting from the end, clamped to the list. */
  function Slice(l: seq<string>, start: int, stop: int): seq<string> {
    var from := if start >= 0 then start else if |l| + start < 0 then 0 else |l| + start;
    var to := var t := if stop < 0 then |l| + stop else stop; if t >= |l| then |l| - 1 else t;
    if from > to then [] else l[from..to + 1]
  }

  function PutAll(h: OMap<string>, pairs: seq<(string, string)>): OMap<string>
    decreases pairs
  {
    if pairs == [] then h else PutAll(h.Put(pairs[0].0, pairs[0].1), pairs[1..])
  }

  function RemoveAll(h: OMap<string>, fields: seq<string>): OMap<string>
    decreases fields
  {
    if fields == [] then h else RemoveAll(h.Remove(fields[0]), fields[1..])
  }

  /** The fields and values of a hash, alternating, in field order. */
  function Flat(fields: seq<string>, at: map<string, string>): seq<string> {
    if fields == [] then []
    else (if fields[0] in at then [fields[0], at[fields[0]]] else []) + Flat(fields[1..], at)
  }

  /** The effect of an act on a key that holds `v` (after lazy expiry) and expires at `d`. */
  function Meaning(act: Act, now: int, v: Option<Value>, d: Option<int>): Effect {
    match act
    case Get =>
      if v.Some? && v.value.Str? then Look(true, Text(Some(v.value.text))) else Look(false, Text(None))
    case Set(x, ttl) =>
      Effect(Write(Str(x)), true,
             if ttl.Some? then SetTtl(now + ttl.value * 1000) else ClearTtl, 1, Done)
    case Del =>
      if v.Some? then Effect(Drop, false, KeepTtl, 0, Flag(true)) else Look(false, Flag(false))
    case Expire(seconds) =>
      if v.Some? then Effect(Leave, true, SetTtl(now + seconds * 1000), 1, Flag(true))
      else Look(false, Flag(false))
    case Exists => Look(false, Flag(v.Some?))
    case Ttl =>
      Look(false, Num(if v.None? then -2 else if d.None? then -1 else Seconds(d.value - now)))
    case Persist =>
      if v.Some? && d.Some? then Effect(Leave, true, ClearTtl, 1, Flag(true))
      else Look(false, Flag(false))
    case TypeOf => Look(false, KindIs(if v.Some? then Some(KindOf(v.value)) else None))
    case _ => ContainerMeaning(act, v)
  }

  function ContainerMeaning(act: Act, v: Option<Value>): Effect {
    match act
    case LPush(_) | LPop | LRange(_, _) | RPush(_) | RPop | LLen =>
      if v.Some? && !v.value.List? then Look(false, WrongType)
      else ListMeaning(act, if v.Some? then Some(v.value.elems) else None)
    case _ =>
      if v.Some? && !v.value.Hash? then Look(false, WrongType)
      else HashMeaning(act, if v.Some? then Some(v.value.fields) else None)
  }

  function ListMeaning(act: Act, l: Option<seq<string>>): Effect {
    match act
    case LPush(xs) =>
      // Creating a list does not count as a mutation.
      if l.None? then Effect(Write(List(Reverse(xs))), true, KeepTtl, 0, Num(|xs|))
      else Effect(Write(List(Reverse(xs) + l.value)), true, KeepTtl, 1, Num(|l.value| + |xs|))
    case RPush(xs) =>
      if l.None? then Effect(Write(List(xs)), true, KeepTtl, 0, Num(|xs|))
      else Effect(Write(List(l.value + xs)), true, KeepTtl, 1, Num(|l.value| + |xs|))
    case LPop =>
      if l.None? then Look(false, Text(None))
      else if |l.value| <= 1 then
        Effect(Drop, false, KeepTtl, 0, Text(if l.value == [] then None else Some(l.value[0])))
      else Effect(Write(List(l.value[1..])), true, KeepTtl, 1, Text(Some(l.value[0])))
    case RPop =>
      if l.None? then Look(false, Text(None))
      else if |l.value| <= 1 then
        Effect(Drop, false, KeepTtl, 0, Text(if l.value == [] then None else Some(l.value[0])))
      else
        var n := |l.value| - 1;
        Effect(Write(List(l.value[..n])), true, KeepTtl, 1, Text(Some(l.value[n])))
    case LRange(start, stop) =>
      if l.None? then Look(false, Items([])) else Look(true, Items(Slice(l.value, start, stop)))
    case _ =>
      if l.None? then Look(false, Num(0)) else Look(true, Num(|l.value|))
  }

  function HashMeaning(act: Act, h: Option<OMap<string>>): Effect {
    match act
    case HSet(pairs) =>
      var before := if h.Some? then h.value else OMap([], map[]);
      var after := PutAll(before, pairs);
      Effect(Write(Hash(after)), true, KeepTtl, if pairs == [] then 0 else 1,
             Num(|after.keys| - |before.keys|))
    case HGet(f) =>
      if h.None? then Look(false, Text(None))
      else Look(true, Text(if f in h.value.at then Some(h.value.at[f]) else None))
    case HDel(fs) =>
      if h.None? then Look(false, Num(0))
      else
        var after := RemoveAll(h.value, fs);
        var n := |h.value.keys| - |after.keys|;
        if after.keys == [] then Effect(Drop, false, KeepTtl, 0, Num(n))
        else if n > 0 then Effect(Write(Hash(after)), true, KeepTtl, 1, Num(n))
        else Look(false, Num(0))
    case HGetAll =>
      if h.None? then Look(false, Items([]))
      else Look(true, Items(Flat(h.value.keys, h.value.at)))
    case _ =>
      if h.None? then Look(false, Num(0)) else Look(true, Num(|h.value.keys|))
  }

  // ----- Commits -----

  function RemoveKey(s: State, k: string): State {
    if !s.Has(k) then s
    else s.(dirty := s.dirty + 1,
            values := s.values.Remove(k),
            recency := Without(s.recency, k),
            ttl := s.ttl.Clear(k))
  }

  /** Lazy expiry: a key past its deadline goes, and its listener is told. */
  function Gate(s: State, now: int, k: string): State {
    if s.Has(k) && s.ttl.IsExpired(k, now) then
      var r := RemoveKey(s, k);
      r.(expired := r.expired + [k])
    else s
  }

  predicate Full(s: State, k: string) {
    !s.Has(k) && |s.values.keys| >= s.capacity
  }

  /** Make room for a new key at capacity: the least recently used key goes, reported as an expiry
      if its deadline has passed and as an eviction otherwise. */
  function Reserve(s: State, now: int, k: string): State {
    if Full(s, k) && s.recency != [] then
      var victim := s.recency[|s.recency| - 1];
      var r := RemoveKey(s, victim);
      if s.ttl.IsExpired(victim, now) then r.(expired := r.expired + [victim])
      else r.(evictions := r.evictions + 1, evicted := r.evicted + [victim])
    else s
  }

  function ChangeTtl(t: Table, k: string, c: TtlChange): Table {
    match c
    case KeepTtl => t
    case SetTtl(at) => t.Set(k, at)
    case ClearTtl => t.Clear(k)
  }

  function Settle(s: State, k: string, e: Effect): State {
    s.(recency := if e.touch then LRU.Touched(s.recency, k) else s.recency,
       ttl := ChangeTtl(s.ttl, k, e.ttl),
       dirty := s.dirty + e.dirty)
  }

  function Commit(s: State, now: int, k: string, e: Effect): State {
    match e.change
    case Leave => Settle(s, k, e)
    case Drop => RemoveKey(s, k)
    case Write(v) =>
      var r := Reserve(s, now, k);
      Settle(r.(values := r.values.Put(k, v)), k, e)
  }

  function EffectOf(s: State, now: int, k: string, act: Act): Effect {
    Meaning(act, now, s.Lookup(k), s.Deadline(k))
  }

  // ----- Operations -----

  function KeyStep(s: State, now: int, k: string, act: Act): (State, Outcome) {
    var g := Gate(s, now, k);
    var e := EffectOf(g, now, k, act);
    (Commit(g, now, k, e), e.outcome)
  }

  /** A key pattern: every `*` stands for any characters, everything else for itself. */
  predicate Glob(pattern: string, key: string)
    decreases |pattern| + |key|
  {
    if pattern == [] then key == []
    else if pattern[0] == '*' then Glob(pattern[1..], key) || (key != [] && Glob(pattern, key[1..]))
    else key != [] && key[0] == pattern[0] && Glob(pattern[1..], key[1..])
  }

  function Matching(pattern: string, keys: seq<string>): (r: seq<string>)
    ensures forall k :: k in r <==> k in keys && Glob(pattern, k)
  {
    if keys == [] then []
    else (if Glob(pattern, keys[0]) then [keys[0]] else []) + Matching(pattern, keys[1..])
  }

  /** Pass every listed key through the gate. */
  function Purge(s: State, now: int, ks: seq<string>): State
    decreases ks
  {
    if ks == [] then s else Purge(Gate(s, now, ks[0]), now, ks[1..])
  }

  /** Remove every listed key as expired. */
  function Reclaim(s: State, ks: seq<string>): State
    decreases ks
  {
    if ks == [] then s
    else
      var r := RemoveKey(s, ks[0]);
      Reclaim(r.(expired := r.expired + [ks[0]]), ks[1..])
  }

  function Step(s: State, now: int, op: Op): (State, Outcome) {
    match op
    case OnKey(k, act) => KeyStep(s, now, k, act)
    case Keys(pattern) =>
      var p := Purge(s, now, s.values.keys);
      (p, Items(Matching(pattern, p.values.keys)))
    case Sweep(limit) =>
      var (due, t) := Collect(s.ttl, now, limit);
      (Reclaim(s.(ttl := t), due), Num(|due|))
  }

  /** A timed operation, and runs of them. */
  datatype Timed = At(now: int, op: Op)

  function Run(s: State, ops: seq<Timed>): State {
    if ops == [] then s
    else
      var last := ops[|ops| - 1];
      Step(Run(s, ops[..|ops| - 1]), last.now, last.op).0
  }

  function Outcomes(s: State, ops: seq<Timed>): seq<Outcome> {
    if ops == [] then []
    else
      var before, last := ops[..|ops| - 1], ops[|ops| - 1];
      Outcomes(s, before) + [Step(Run(s, before), last.now, last.op).1]
  }
}
