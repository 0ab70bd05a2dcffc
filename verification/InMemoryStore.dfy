/** The store itself: three structures kept in lockstep, updated in place. Every public operation
    is proved to change the whole state, and to answer, exactly as `StoreSpec.Step` says. */
module Memory {
  import opened Options
  import opened Sequences
  import opened OrderedMap
  import opened Expiry
  import opened StoreSpec
  import opened StoreFacts
  import opened RecencyWalk
  import LRU

  datatype StoreResult<+T> = Ok(value: T) | Mismatch

  function NumOutcome(r: StoreResult<int>): Outcome {
    match r case Ok(n) => Num(n) case Mismatch => WrongType
  }

  function TextOutcome(r: StoreResult<Option<string>>): Outcome {
    match r case Ok(t) => Text(t) case Mismatch => WrongType
  }

  function ItemsOutcome(r: StoreResult<seq<string>>): Outcome {
    match r case Ok(items) => Items(items) case Mismatch => WrongType
  }

  // ----- The loops over a list's or a hash's payload -----

  /** `unshift` one value after the other: the last pushed value ends up first. */
  method PushHead(list: seq<string>, pushed: seq<string>) returns (r: seq<string>)
    ensures r == Reverse(pushed) + list
  {
    r := list;
    var i := 0;
    while i < |pushed|
      invariant 0 <= i <= |pushed|
      invariant r == Reverse(pushed[..i]) + list
    {
      assert pushed[..i + 1] == pushed[..i] + [pushed[i]];
      ReverseAppend(pushed[..i], pushed[i]);
      r := [pushed[i]] + r;
      i := i + 1;
    }
    assert pushed[..i] == pushed;
  }

  method PushTail(list: seq<string>, pushed: seq<string>) returns (r: seq<string>)
    ensures r == list + pushed
  {
    r := list;
    var i := 0;
    while i < |pushed|
      invariant 0 <= i <= |pushed|
      invariant r == list + pushed[..i]
    {
      r := r + [pushed[i]];
      i := i + 1;
    }
  }

  /** Set each pair in order, counting the fields that were not there yet. */
  method SetFields(h: OMap<string>, pairs: seq<(string, string)>) returns (r: OMap<string>, added: nat)
    ensures r == PutAll(h, pairs)
    ensures added == |r.keys| - |h.keys|
  {
    r, added := h, 0;
    var i := 0;
    while i < |pairs|
      invariant 0 <= i <= |pairs|
      invariant r == PutAll(h, pairs[..i])
      invariant added == |r.keys| - |h.keys|
    {
      assert pairs[..i + 1] == pairs[..i] + [pairs[i]];
      PutAllAppend(h, pairs[..i], pairs[i]);
      var (field, value) := pairs[i];
      if field !in r.at {
        added := added + 1;
      }
      r := r.Put(field, value);
      i := i + 1;
    }
    assert pairs[..i] == pairs;
  }

  /** Delete each field in order, counting the deletions that found one. */
  method DeleteFields(h: OMap<string>, fields: seq<string>) returns (r: OMap<string>, removed: nat)
    requires h.Valid()
    ensures r == RemoveAll(h, fields) && r.Valid()
    ensures removed == |h.keys| - |r.keys|
    ensures removed == 0 ==> r == h
  {
    r, removed := h, 0;
    var i := 0;
    while i < |fields|
      invariant 0 <= i <= |fields|
      invariant r == RemoveAll(h, fields[..i]) && r.Valid()
      invariant removed == |h.keys| - |r.keys|
      invariant removed == 0 ==> r == h
    {
      assert fields[..i + 1] == fields[..i] + [fields[i]];
      RemoveAllAppend(h, fields[..i], fields[i]);
      RemoveValid(r, fields[i]);
      if fields[i] in r.at {
        removed := removed + 1;
      }
      r := r.Remove(fields[i]);
      i := i + 1;
    }
    assert fields[..i] == fields;
  }

  /** All fields and values, alternating. */
  method Entries(h: OMap<string>) returns (result: seq<string>)
    requires h.Valid()
    ensures result == Flat(h.keys, h.at)
  {
    result := [];
    var i := 0;
    while i < |h.keys|
      invariant 0 <= i <= |h.keys|
      invariant result == Flat(h.keys[..i], h.at)
    {
      assert h.keys[..i + 1] == h.keys[..i] + [h.keys[i]];
      FlatAppend(h.keys[..i], h.keys[i], h.at);
      result := result + [h.keys[i], h.at[h.keys[i]]];
      i := i + 1;
    }
    assert h.keys[..i] == h.keys;
  }

  class InMemoryStore {
    var values: OMap<Value>
    const lru: LRU.LRUTracker
    const expiry: ExpiryManager
    const maxKeys: nat
    var evictionCount: nat
    var dirtyCount: nat
    /** The calls made to the two lifecycle listeners, in order. */
    var onExpired: seq<string>
    var onEvicted: seq<string>

    /** The two helper structures are well formed. */
    ghost predicate Sound()
      reads lru, lru.footprint, expiry
    {
      lru.Valid() && expiry.Valid()
    }

    ghost function View(): State
      reads this, lru, expiry
    {
      State(maxKeys, values, lru.Recency(), expiry.View(), evictionCount, dirtyCount, onExpired, onEvicted)
    }

    ghost predicate Valid()
      reads this, lru, lru.footprint, expiry
    {
      Sound() && View().Valid()
    }

    constructor (maxKeys: nat)
      requires maxKeys >= 1
      ensures Valid() && fresh(lru) && fresh(expiry) && lru.footprint == {}
      ensures View() == Empty(maxKeys)
    {
      this.maxKeys := maxKeys;
      values := OMap([], map[]);
      lru := new LRU.LRUTracker();
      expiry := new ExpiryManager();
      evictionCount, dirtyCount := 0, 0;
      onExpired, onEvicted := [], [];
    }

    // ----- Internals -----

    /** The one place a key is removed: all three structures together. */
    method RemoveKey(key: string)
      requires Valid()
      modifies this`dirtyCount, this`values, lru, lru.footprint, expiry
      ensures Valid() && lru.footprint == old(lru.footprint)
      ensures View() == StoreSpec.RemoveKey(old(View()), key)
      ensures old(View()).Has(key) && key in old(lru.nodes) ==> old(lru.nodes)[key].next == null
    {
      hide LRU.LRUTracker.Valid, ExpiryManager.Valid, State.Valid;
      hide LRU.Touched, Without, Table.Clear, Table.Set, Table.IsExpired;
      hide OMap.Put, OMap.Remove, OMap.Valid, Reverse, PutAll, RemoveAll, Flat;
      RemoveKeyValid(View(), key);
      if key in values.at {
        dirtyCount := dirtyCount + 1;
        values := values.Remove(key);
        var _ := lru.Delete(key);
        var _ := expiry.Clear(key);
      }
    }

    /** The lazy-expiry gate every public operation passes through. */
    method ExpireIfNeeded(key: string, now: int) returns (gone: bool)
      requires Valid()
      modifies this, lru, lru.footprint, expiry
      ensures Valid() && lru.footprint == old(lru.footprint)
      ensures View() == Gate(old(View()), now, key)
      ensures gone <==> old(View()).Has(key) && !View().Has(key)
      ensures !gone ==> unchanged(lru) && unchanged(lru.footprint) && View() == old(View())
      ensures gone && key in old(lru.nodes) ==> old(lru.nodes)[key].next == null
    {
      hide LRU.LRUTracker.Valid, ExpiryManager.Valid, State.Valid;
      hide LRU.Touched, Without, Table.Clear, Table.Set, Table.IsExpired;
      hide OMap.Put, OMap.Remove, OMap.Valid, Reverse, PutAll, RemoveAll, Flat;
      GateValid(View(), now, key);
      if key !in values.at {
        return false;
      }
      var due := expiry.IsExpired(key, now);
      if !due {
        return false;
      }
      RemoveKeyValid(View(), key);
      RemoveKey(key);
      onExpired := onExpired + [key];
      return true;
    }

    /** Evict one key; a victim that is past its deadline is reported as expired. */
    method MakeRoomForNewKey(now: int, ghost key: string)
      requires Valid() && Full(View(), key)
      modifies this, lru, lru.footprint, expiry
      ensures Valid() && lru.footprint == old(lru.footprint)
      ensures View() == Reserve(old(View()), now, key)
    {
      hide LRU.LRUTracker.Valid, ExpiryManager.Valid, State.Valid;
      hide LRU.Touched, Without, Table.Clear, Table.Set, Table.IsExpired;
      hide OMap.Put, OMap.Remove, OMap.Valid, Reverse, PutAll, RemoveAll, Flat;
      ReserveValid(View(), now, key);
      RecencySize(View());
      var victim := lru.PeekLRU();
      if victim.None? {
        return;
      }
      var wasExpired := expiry.IsExpired(victim.value, now);
      RemoveKey(victim.value);
      if wasExpired {
        onExpired := onExpired + [victim.value];
      } else {
        evictionCount := evictionCount + 1;
        onEvicted := onEvicted + [victim.value];
      }
    }

    method ReserveSlotFor(key: string, now: int)
      requires Valid()
      modifies this, lru, lru.footprint, expiry
      ensures Valid() && lru.footprint == old(lru.footprint)
      ensures View() == Reserve(old(View()), now, key)
    {
      hide LRU.LRUTracker.Valid, ExpiryManager.Valid, State.Valid;
      hide LRU.Touched, Without, Table.Clear, Table.Set, Table.IsExpired;
      hide OMap.Put, OMap.Remove, OMap.Valid, Reverse, PutAll, RemoveAll, Flat;
      Parts(View());
      SizeIsKeys(values);
      if key !in values.at && |values.at| >= maxKeys {
        MakeRoomForNewKey(now, key);
      }
    }

    /** A list or hash that has been changed is stored again, which counts as a use and a mutation. */
    method WriteBack(key: string, value: Value)
      requires Sound()
      modifies `values, `dirtyCount, lru, lru.footprint
      ensures Sound() && fresh(lru.footprint - old(lru.footprint))
      ensures View() == var s := old(View());
                        s.(values := s.values.Put(key, value),
                           recency := LRU.Touched(s.recency, key),
                           dirty := s.dirty + 1)
    {
      hide LRU.LRUTracker.Valid, ExpiryManager.Valid, LRU.Touched, OMap.Put;
      values := values.Put(key, value);
      lru.Touch(key);
      dirtyCount := dirtyCount + 1;
    }

    // ----- Strings -----

    method Get(key: string, now: int) returns (text: Option<string>)
      requires Valid()
      modifies this, lru, lru.footprint, expiry
      ensures Valid() && fresh(lru.footprint - old(lru.footprint))
      ensures View() == KeyStep(old(View()), now, key, Act.Get).0
      ensures Text(text) == KeyStep(old(View()), now, key, Act.Get).1
    {
      hide LRU.LRUTracker.Valid, ExpiryManager.Valid, State.Valid;
      hide LRU.Touched, Without, Table.Clear, Table.Set, Table.IsExpired;
      hide OMap.Put, OMap.Remove, OMap.Valid, Reverse, PutAll, RemoveAll, Flat;
      KeyStepValid(View(), now, key, Act.Get);
      var gone := ExpireIfNeeded(key, now);
      if gone || key !in values.at || !values.at[key].Str? {
        return None;
      }
      lru.Touch(key);
      return Some(values.at[key].text);
    }

    method Set(key: string, value: string, ttlSeconds: Option<int>, now: int)
      requires Valid()
      modifies this, lru, lru.footprint, expiry
      ensures Valid() && fresh(lru.footprint - old(lru.footprint))
      ensures View() == KeyStep(old(View()), now, key, Act.Set(value, ttlSeconds)).0
    {
      hide LRU.LRUTracker.Valid, ExpiryManager.Valid, State.Valid;
      hide LRU.Touched, Without, Table.Clear, Table.Set, Table.IsExpired;
      hide OMap.Put, OMap.Remove, OMap.Valid, KeyStep, Gate, Reserve;
      SetCommit(View(), now, key, value, ttlSeconds);
      KeyStepValid(View(), now, key, Act.Set(value, ttlSeconds));
      var _ := ExpireIfNeeded(key, now);
      ReserveSlotFor(key, now);
      values := values.Put(key, Str(value));
      lru.Touch(key);
      dirtyCount := dirtyCount + 1;
      if ttlSeconds.Some? {
        expiry.Set(key, now + ttlSeconds.value * 1000);
      } else {
        var _ := expiry.Clear(key);
      }
    }

    method Delete(key: string, now: int) returns (removed: bool)
      requires Valid()
      modifies this, lru, lru.footprint, expiry
      ensures Valid() && fresh(lru.footprint - old(lru.footprint))
      ensures View() == KeyStep(old(View()), now, key, Act.Del).0
      ensures Flag(removed) == KeyStep(old(View()), now, key, Act.Del).1
    {
      hide LRU.LRUTracker.Valid, ExpiryManager.Valid, State.Valid;
      hide LRU.Touched, Without, Table.Clear, Table.Set, Table.IsExpired;
      hide OMap.Put, OMap.Remove, OMap.Valid, Reverse, PutAll, RemoveAll, Flat;
      KeyStepValid(View(), now, key, Act.Del);
      var _ := ExpireIfNeeded(key, now);
      if key !in values.at {
        return false;
      }
      RemoveKey(key);
      return true;
    }

    method Expire(key: string, seconds: int, now: int) returns (applied: bool)
      requires Valid()
      modifies this, lru, lru.footprint, expiry
      ensures Valid() && fresh(lru.footprint - old(lru.footprint))
      ensures View() == KeyStep(old(View()), now, key, Act.Expire(seconds)).0
      ensures Flag(applied) == KeyStep(old(View()), now, key, Act.Expire(seconds)).1
    {
      hide LRU.LRUTracker.Valid, ExpiryManager.Valid, State.Valid;
      hide LRU.Touched, Without, Table.Clear, Table.Set, Table.IsExpired;
      hide OMap.Put, OMap.Remove, OMap.Valid, Reverse, PutAll, RemoveAll, Flat;
      KeyStepValid(View(), now, key, Act.Expire(seconds));
      ghost var g := Gate(View(), now, key);
      ghost var e := EffectOf(g, now, key, Act.Expire(seconds));
      assert KeyStep(View(), now, key, Act.Expire(seconds)) == (Commit(g, now, key, e), e.outcome);
      ExpireCommit(g, now, key, seconds);
      hide KeyStep, EffectOf, Gate, Commit;
      var gone := ExpireIfNeeded(key, now);
      if gone {
        return false;
      }
      if key !in values.at {
        return false;
      }
      expiry.Set(key, now + seconds * 1000);
      lru.Touch(key);
      dirtyCount := dirtyCount + 1;
      return true;
    }

    method Exists(key: string, now: int) returns (present: bool)
      requires Valid()
      modifies this, lru, lru.footprint, expiry
      ensures Valid() && fresh(lru.footprint - old(lru.footprint))
      ensures View() == KeyStep(old(View()), now, key, Act.Exists).0
      ensures Flag(present) == KeyStep(old(View()), now, key, Act.Exists).1
    {
      hide LRU.LRUTracker.Valid, ExpiryManager.Valid, State.Valid;
      hide LRU.Touched, Without, Table.Clear, Table.Set, Table.IsExpired;
      hide OMap.Put, OMap.Remove, OMap.Valid, Reverse, PutAll, RemoveAll, Flat;
      KeyStepValid(View(), now, key, Act.Exists);
      var gone := ExpireIfNeeded(key, now);
      return !gone && key in values.at;
    }

    method Ttl(key: string, now: int) returns (seconds: int)
      requires Valid()
      modifies this, lru, lru.footprint, expiry
      ensures Valid() && fresh(lru.footprint - old(lru.footprint))
      ensures View() == KeyStep(old(View()), now, key, Act.Ttl).0
      ensures Num(seconds) == KeyStep(old(View()), now, key, Act.Ttl).1
    {
      hide LRU.LRUTracker.Valid, ExpiryManager.Valid, State.Valid;
      hide LRU.Touched, Without, Table.Clear, Table.Set, Table.IsExpired;
      hide OMap.Put, OMap.Remove, OMap.Valid, Reverse, PutAll, RemoveAll, Flat;
      KeyStepValid(View(), now, key, Act.Ttl);
      var gone := ExpireIfNeeded(key, now);
      if gone || key !in values.at {
        return -2;
      }
      var remMs := expiry.RemainingMs(key, now);
      if remMs.None? {
        return -1;
      }
      return (remMs.value + 999) / 1000;
    }

    method Persist(key: string, now: int) returns (applied: bool)
      requires Valid()
      modifies this, lru, lru.footprint, expiry
      ensures Valid() && fresh(lru.footprint - old(lru.footprint))
      ensures View() == KeyStep(old(View()), now, key, Act.Persist).0
      ensures Flag(applied) == KeyStep(old(View()), now, key, Act.Persist).1
    {
      hide LRU.LRUTracker.Valid, ExpiryManager.Valid, State.Valid;
      hide LRU.Touched, Without, Table.Clear, Table.Set, Table.IsExpired;
      hide OMap.Put, OMap.Remove, OMap.Valid, Reverse, PutAll, RemoveAll, Flat;
      KeyStepValid(View(), now, key, Act.Persist);
      var gone := ExpireIfNeeded(key, now);
      if gone || key !in values.at {
        return false;
      }
      var timed := expiry.Has(key);
      if !timed {
        return false;
      }
      var _ := expiry.Clear(key);
      lru.Touch(key);
      dirtyCount := dirtyCount + 1;
      return true;
    }

    method KeyType(key: string, now: int) returns (kind: Option<Kind>)
      requires Valid()
      modifies this, lru, lru.footprint, expiry
      ensures Valid() && fresh(lru.footprint - old(lru.footprint))
      ensures View() == KeyStep(old(View()), now, key, Act.TypeOf).0
      ensures KindIs(kind) == KeyStep(old(View()), now, key, Act.TypeOf).1
    {
      hide LRU.LRUTracker.Valid, ExpiryManager.Valid, State.Valid;
      hide LRU.Touched, Without, Table.Clear, Table.Set, Table.IsExpired;
      hide OMap.Put, OMap.Remove, OMap.Valid, Reverse, PutAll, RemoveAll, Flat;
      KeyStepValid(View(), now, key, Act.TypeOf);
      var gone := ExpireIfNeeded(key, now);
      if gone || key !in values.at {
        return None;
      }
      return Some(KindOf(values.at[key]));
    }

    /** Reclaim what has expired and list the keys that match, in insertion order. */
    method MatchingKeys(pattern: string, now: int) returns (matched: seq<string>)
      requires Valid()
      modifies this, lru, lru.footprint, expiry
      ensures Valid() && fresh(lru.footprint - old(lru.footprint))
      ensures View() == Step(old(View()), now, Keys(pattern)).0
      ensures Items(matched) == Step(old(View()), now, Keys(pattern)).1
    {
      hide LRU.LRUTracker.Valid, ExpiryManager.Valid, State.Valid;
      hide LRU.Touched, Without, Table.Clear, Table.Set, Table.IsExpired;
      hide OMap.Put, OMap.Remove, OMap.Valid, Reverse, PutAll, RemoveAll, Flat;
      hide Matching, Glob;
      var order := values.keys;
      matched := [];
      ghost var passed: seq<string> := [];
      var i := 0;
      assert order[..0] == [] && passed + order[0..] == order;
      assert Matching(pattern, []) == [] by { NothingMatches(pattern); }
      while i < |order|
        invariant 0 <= i <= |order|
        invariant Valid() && lru.footprint == old(lru.footprint)
        invariant View() == Purge(old(View()), now, order[..i])
        invariant values.keys == passed + order[i..]
        invariant matched == Matching(pattern, passed)
      {
        ScanStep(old(View()), now, order, i, View(), passed);
        MatchingAppend(pattern, passed, order[i]);
        var gone := ExpireIfNeeded(order[i], now);
        if !gone {
          passed := passed + [order[i]];
          if Glob(pattern, order[i]) {
            matched := matched + [order[i]];
          }
        }
        i := i + 1;
      }
      assert order[..i] == order;
      assert passed + order[i..] == passed;
    }

    // ----- Lists -----

    method PushNewList(key: string, pushed: seq<string>, now: int) returns (r: StoreResult<int>)
      requires Valid() && key !in values.at
      modifies this, lru, lru.footprint, expiry
      ensures Valid() && fresh(lru.footprint - old(lru.footprint))
      ensures View() == Commit(old(View()), now, key, Meaning(Act.LPush(pushed), now, None, None))
      ensures r == Ok(|pushed|)
    {
      hide LRU.LRUTracker.Valid, ExpiryManager.Valid, State.Valid;
      hide LRU.Touched, Without, Table.Clear, Table.Set, Table.IsExpired;
      hide OMap.Put, OMap.Remove, OMap.Valid, Reverse, PutAll, RemoveAll, Flat;
      EffectSane(View(), now, key, Act.LPush(pushed));
      CommitValid(View(), now, key, Meaning(Act.LPush(pushed), now, None, None));
      ReserveValid(View(), now, key);
      ReserveSlotFor(key, now);
      PutTwice(values, key, List([]), List(Reverse(pushed)));
      values := values.Put(key, List([]));
      var list := PushHead([], pushed);
      assert list == Reverse(pushed);
      values := values.Put(key, List(list));
      lru.Touch(key);
      return Ok(|list|);
    }

    method PushNewListTail(key: string, pushed: seq<string>, now: int) returns (r: StoreResult<int>)
      requires Valid() && key !in values.at
      modifies this, lru, lru.footprint, expiry
      ensures Valid() && fresh(lru.footprint - old(lru.footprint))
      ensures View() == Commit(old(View()), now, key, Meaning(Act.RPush(pushed), now, None, None))
      ensures r == Ok(|pushed|)
    {
      hide LRU.LRUTracker.Valid, ExpiryManager.Valid, State.Valid;
      hide LRU.Touched, Without, Table.Clear, Table.Set, Table.IsExpired;
      hide OMap.Put, OMap.Remove, OMap.Valid, Reverse, PutAll, RemoveAll, Flat;
      EffectSane(View(), now, key, Act.RPush(pushed));
      CommitValid(View(), now, key, Meaning(Act.RPush(pushed), now, None, None));
      ReserveValid(View(), now, key);
      ReserveSlotFor(key, now);
      PutTwice(values, key, List([]), List(pushed));
      values := values.Put(key, List([]));
      var list := PushTail([], pushed);
      assert list == pushed;
      values := values.Put(key, List(list));
      lru.Touch(key);
      return Ok(|list|);
    }

    method LPush(key: string, pushed: seq<string>, now: int) returns (r: StoreResult<int>)
      requires Valid()
      modifies this, lru, lru.footprint, expiry
      ensures Valid() && fresh(lru.footprint - old(lru.footprint))
      ensures View() == KeyStep(old(View()), now, key, Act.LPush(pushed)).0
      ensures NumOutcome(r) == KeyStep(old(View()), now, key, Act.LPush(pushed)).1
    {
      hide LRU.LRUTracker.Valid, ExpiryManager.Valid, State.Valid;
      hide LRU.Touched, Without, Table.Clear, Table.Set, Table.IsExpired;
      hide OMap.Put, OMap.Remove, OMap.Valid, Reverse, PutAll, RemoveAll, Flat;
      KeyStepValid(View(), now, key, Act.LPush(pushed));
      ghost var g := Gate(View(), now, key);
      ghost var e := EffectOf(g, now, key, Act.LPush(pushed));
      assert KeyStep(View(), now, key, Act.LPush(pushed)) == (Commit(g, now, key, e), e.outcome);
      PushCommit(g, now, key, Act.LPush(pushed), pushed);
      hide KeyStep, EffectOf, Gate, Reserve, Commit, Meaning;
      var gone := ExpireIfNeeded(key, now);
      if gone || key !in values.at {
        r := PushNewList(key, pushed, now);
        return;
      }
      if !values.at[key].List? {
        return Mismatch;
      }
      var list := PushHead(values.at[key].elems, pushed);
      WriteBack(key, List(list));
      return Ok(|list|);
    }

    method RPush(key: string, pushed: seq<string>, now: int) returns (r: StoreResult<int>)
      requires Valid()
      modifies this, lru, lru.footprint, expiry
      ensures Valid() && fresh(lru.footprint - old(lru.footprint))
      ensures View() == KeyStep(old(View()), now, key, Act.RPush(pushed)).0
      ensures NumOutcome(r) == KeyStep(old(View()), now, key, Act.RPush(pushed)).1
    {
      hide LRU.LRUTracker.Valid, ExpiryManager.Valid, State.Valid;
      hide LRU.Touched, Without, Table.Clear, Table.Set, Table.IsExpired;
      hide OMap.Put, OMap.Remove, OMap.Valid, Reverse, PutAll, RemoveAll, Flat;
      KeyStepValid(View(), now, key, Act.RPush(pushed));
      ghost var g := Gate(View(), now, key);
      ghost var e := EffectOf(g, now, key, Act.RPush(pushed));
      assert KeyStep(View(), now, key, Act.RPush(pushed)) == (Commit(g, now, key, e), e.outcome);
      PushCommit(g, now, key, Act.RPush(pushed), pushed);
      hide KeyStep, EffectOf, Gate, Reserve, Commit, Meaning;
      var gone := ExpireIfNeeded(key, now);
      if gone || key !in values.at {
        r := PushNewListTail(key, pushed, now);
        return;
      }
      if !values.at[key].List? {
        return Mismatch;
      }
      var list := PushTail(values.at[key].elems, pushed);
      WriteBack(key, List(list));
      return Ok(|list|);
    }

    method LPop(key: string, now: int) returns (r: StoreResult<Option<string>>)
      requires Valid()
      modifies this, lru, lru.footprint, expiry
      ensures Valid() && fresh(lru.footprint - old(lru.footprint))
      ensures View() == KeyStep(old(View()), now, key, Act.LPop).0
      ensures TextOutcome(r) == KeyStep(old(View()), now, key, Act.LPop).1
    {
      hide LRU.LRUTracker.Valid, ExpiryManager.Valid, State.Valid;
      hide LRU.Touched, Without, Table.Clear, Table.Set, Table.IsExpired;
      hide OMap.Put, OMap.Remove, OMap.Valid, Reverse, PutAll, RemoveAll, Flat;
      KeyStepValid(View(), now, key, Act.LPop);
      var gone := ExpireIfNeeded(key, now);
      if gone || key !in values.at {
        return Ok(None);
      }
      if !values.at[key].List? {
        return Mismatch;
      }
      var list := values.at[key].elems;
      var taken: Option<string> := None;
      if |list| > 0 {
        taken, list := Some(list[0]), list[1..];
      }
      if |list| == 0 {
        RemoveKey(key);
      } else {
        WriteBack(key, List(list));
      }
      return Ok(taken);
    }

    method RPop(key: string, now: int) returns (r: StoreResult<Option<string>>)
      requires Valid()
      modifies this, lru, lru.footprint, expiry
      ensures Valid() && fresh(lru.footprint - old(lru.footprint))
      ensures View() == KeyStep(old(View()), now, key, Act.RPop).0
      ensures TextOutcome(r) == KeyStep(old(View()), now, key, Act.RPop).1
    {
      hide LRU.LRUTracker.Valid, ExpiryManager.Valid, State.Valid;
      hide LRU.Touched, Without, Table.Clear, Table.Set, Table.IsExpired;
      hide OMap.Put, OMap.Remove, OMap.Valid, Reverse, PutAll, RemoveAll, Flat;
      KeyStepValid(View(), now, key, Act.RPop);
      var gone := ExpireIfNeeded(key, now);
      if gone || key !in values.at {
        return Ok(None);
      }
      if !values.at[key].List? {
        return Mismatch;
      }
      var list := values.at[key].elems;
      var taken: Option<string> := None;
      if |list| > 0 {
        taken, list := Some(list[|list| - 1]), list[..|list| - 1];
      }
      if |list| == 0 {
        RemoveKey(key);
      } else {
        WriteBack(key, List(list));
      }
      return Ok(taken);
    }

    method LRange(key: string, start: int, stop: int, now: int) returns (r: StoreResult<seq<string>>)
      requires Valid()
      modifies this, lru, lru.footprint, expiry
      ensures Valid() && fresh(lru.footprint - old(lru.footprint))
      ensures View() == KeyStep(old(View()), now, key, Act.LRange(start, stop)).0
      ensures ItemsOutcome(r) == KeyStep(old(View()), now, key, Act.LRange(start, stop)).1
    {
      hide LRU.LRUTracker.Valid, ExpiryManager.Valid, State.Valid;
      hide LRU.Touched, Without, Table.Clear, Table.Set, Table.IsExpired;
      hide OMap.Put, OMap.Remove, OMap.Valid, Reverse, PutAll, RemoveAll, Flat;
      KeyStepValid(View(), now, key, Act.LRange(start, stop));
      var gone := ExpireIfNeeded(key, now);
      if gone || key !in values.at {
        return Ok([]);
      }
      if !values.at[key].List? {
        return Mismatch;
      }
      lru.Touch(key);
      var list := values.at[key].elems;
      var len := |list|;
      var from := if start < 0 then len + start else start;
      var to := if stop < 0 then len + stop else stop;
      if from < 0 {
        from := 0;
      }
      if to >= len {
        to := len - 1;
      }
      if from > to {
        return Ok([]);
      }
      return Ok(list[from..to + 1]);
    }

    method LLen(key: string, now: int) returns (r: StoreResult<int>)
      requires Valid()
      modifies this, lru, lru.footprint, expiry
      ensures Valid() && fresh(lru.footprint - old(lru.footprint))
      ensures View() == KeyStep(old(View()), now, key, Act.LLen).0
      ensures NumOutcome(r) == KeyStep(old(View()), now, key, Act.LLen).1
    {
      hide LRU.LRUTracker.Valid, ExpiryManager.Valid, State.Valid;
      hide LRU.Touched, Without, Table.Clear, Table.Set, Table.IsExpired;
      hide OMap.Put, OMap.Remove, OMap.Valid, Reverse, PutAll, RemoveAll, Flat;
      KeyStepValid(View(), now, key, Act.LLen);
      var gone := ExpireIfNeeded(key, now);
      if gone || key !in values.at {
        return Ok(0);
      }
      if !values.at[key].List? {
        return Mismatch;
      }
      lru.Touch(key);
      return Ok(|values.at[key].elems|);
    }

    // ----- Hashes -----

    method CreateHash(key: string, now: int) returns (fields: OMap<string>)
      requires Valid() && key !in values.at
      modifies this, lru, lru.footprint, expiry
      ensures Sound() && lru.footprint == old(lru.footprint)
      ensures var r := Reserve(old(View()), now, key);
              View() == r.(values := r.values.Put(key, Hash(OMap([], map[]))))
      ensures fields == OMap([], map[])
    {
      hide LRU.LRUTracker.Valid, ExpiryManager.Valid, State.Valid;
      hide LRU.Touched, Without, Table.Clear, Table.Set, Table.IsExpired;
      hide OMap.Put, OMap.Remove, OMap.Valid, Reverse, PutAll, RemoveAll, Flat;
      ReserveValid(View(), now, key);
      ReserveSlotFor(key, now);
      fields := OMap([], map[]);
      values := values.Put(key, Hash(fields));
    }

    /** The rest of HSET once the hash is there: set the fields, mark the use. */
    method FillHash(key: string, fields: OMap<string>, pairs: seq<(string, string)>, ghost room: State)
      returns (added: nat)
      requires Sound() && View() == room.(values := values)
      requires values.Put(key, Hash(PutAll(fields, pairs))) == room.values.Put(key, Hash(PutAll(fields, pairs)))
      modifies `values, `dirtyCount, lru, lru.footprint
      ensures Sound() && fresh(lru.footprint - old(lru.footprint))
      ensures View() == Settle(room.(values := room.values.Put(key, Hash(PutAll(fields, pairs)))), key,
                               FillEffect(fields, pairs))
      ensures added == |PutAll(fields, pairs).keys| - |fields.keys|
    {
      hide LRU.LRUTracker.Valid, ExpiryManager.Valid, State.Valid;
      hide LRU.Touched, Without, Table.Clear, Table.Set, Table.IsExpired;
      hide OMap.Put, OMap.Remove, OMap.Valid, Reverse, PutAll, RemoveAll, Flat;
      var filled;
      filled, added := SetFields(fields, pairs);
      values := values.Put(key, Hash(filled));
      lru.Touch(key);
      if |pairs| > 0 {
        dirtyCount := dirtyCount + 1;
      }
    }

    method HSet(key: string, pairs: seq<(string, string)>, now: int) returns (r: StoreResult<int>)
      requires Valid()
      modifies this, lru, lru.footprint, expiry
      ensures Valid() && fresh(lru.footprint - old(lru.footprint))
      ensures View() == KeyStep(old(View()), now, key, Act.HSet(pairs)).0
      ensures NumOutcome(r) == KeyStep(old(View()), now, key, Act.HSet(pairs)).1
    {
      hide LRU.LRUTracker.Valid, ExpiryManager.Valid, State.Valid;
      hide LRU.Touched, Without, Table.Clear, Table.Set, Table.IsExpired;
      hide OMap.Put, OMap.Remove, OMap.Valid, Reverse, PutAll, RemoveAll, Flat;
      KeyStepValid(View(), now, key, Act.HSet(pairs));
      ghost var g := Gate(View(), now, key);
      ghost var e := EffectOf(g, now, key, Act.HSet(pairs));
      assert KeyStep(View(), now, key, Act.HSet(pairs)) == (Commit(g, now, key, e), e.outcome);
      HSetCommit(g, now, key, pairs);
      hide KeyStep, EffectOf, Gate, Reserve, Commit;
      var gone := ExpireIfNeeded(key, now);
      if !gone && key in values.at && !values.at[key].Hash? {
        return Mismatch;
      }
      var added;
      if gone || key !in values.at {
        ghost var room := Reserve(View(), now, key);
        var fields := CreateHash(key, now);
        PutTwice(room.values, key, Hash(fields), Hash(PutAll(fields, pairs)));
        added := FillHash(key, fields, pairs, room);
      } else {
        added := FillHash(key, values.at[key].fields, pairs, View());
      }
      return Ok(added);
    }

    method HGet(key: string, field: string, now: int) returns (r: StoreResult<Option<string>>)
      requires Valid()
      modifies this, lru, lru.footprint, expiry
      ensures Valid() && fresh(lru.footprint - old(lru.footprint))
      ensures View() == KeyStep(old(View()), now, key, Act.HGet(field)).0
      ensures TextOutcome(r) == KeyStep(old(View()), now, key, Act.HGet(field)).1
    {
      hide LRU.LRUTracker.Valid, ExpiryManager.Valid, State.Valid;
      hide LRU.Touched, Without, Table.Clear, Table.Set, Table.IsExpired;
      hide OMap.Put, OMap.Remove, OMap.Valid, Reverse, PutAll, RemoveAll, Flat;
      KeyStepValid(View(), now, key, Act.HGet(field));
      var gone := ExpireIfNeeded(key, now);
      if gone || key !in values.at {
        return Ok(None);
      }
      if !values.at[key].Hash? {
        return Mismatch;
      }
      lru.Touch(key);
      var fields := values.at[key].fields;
      return Ok(if field in fields.at then Some(fields.at[field]) else None);
    }

    method HDel(key: string, removed: seq<string>, now: int) returns (r: StoreResult<int>)
      requires Valid()
      modifies this, lru, lru.footprint, expiry
      ensures Valid() && fresh(lru.footprint - old(lru.footprint))
      ensures View() == KeyStep(old(View()), now, key, Act.HDel(removed)).0
      ensures NumOutcome(r) == KeyStep(old(View()), now, key, Act.HDel(removed)).1
    {
      hide LRU.LRUTracker.Valid, ExpiryManager.Valid, State.Valid;
      hide LRU.Touched, Without, Table.Clear, Table.Set, Table.IsExpired;
      hide OMap.Put, OMap.Remove, OMap.Valid, Reverse, PutAll, RemoveAll, Flat;
      KeyStepValid(View(), now, key, Act.HDel(removed));
      ghost var g := Gate(View(), now, key);
      ghost var e := EffectOf(g, now, key, Act.HDel(removed));
      assert KeyStep(View(), now, key, Act.HDel(removed)) == (Commit(g, now, key, e), e.outcome);
      HDelCommit(g, now, key, removed);
      ghost var res := KeyStep(View(), now, key, Act.HDel(removed));
      hide KeyStep, EffectOf, Gate, Reserve, Commit;
      var gone := ExpireIfNeeded(key, now);
      if gone || key !in values.at {
        return Ok(0);
      }
      if !values.at[key].Hash? {
        return Mismatch;
      }
      HashFields(View(), key);
      var fields, count := DeleteFields(values.at[key].fields, removed);
      SizeIsKeys(fields);
      if |fields.at| == 0 {
        RemoveKey(key);
      } else if count > 0 {
        WriteBack(key, Hash(fields));
      }
      assert View() == res.0;
      return Ok(count);
    }

    method HGetAll(key: string, now: int) returns (r: StoreResult<seq<string>>)
      requires Valid()
      modifies this, lru, lru.footprint, expiry
      ensures Valid() && fresh(lru.footprint - old(lru.footprint))
      ensures View() == KeyStep(old(View()), now, key, Act.HGetAll).0
      ensures ItemsOutcome(r) == KeyStep(old(View()), now, key, Act.HGetAll).1
    {
      hide LRU.LRUTracker.Valid, ExpiryManager.Valid, State.Valid;
      hide LRU.Touched, Without, Table.Clear, Table.Set, Table.IsExpired;
      hide OMap.Put, OMap.Remove, OMap.Valid, Reverse, PutAll, RemoveAll, Flat;
      KeyStepValid(View(), now, key, Act.HGetAll);
      GateValid(View(), now, key);
      var gone := ExpireIfNeeded(key, now);
      if gone || key !in values.at {
        return Ok([]);
      }
      if !values.at[key].Hash? {
        return Mismatch;
      }
      HashFields(View(), key);
      var fields := values.at[key].fields;
      lru.Touch(key);
      var result := Entries(fields);
      return Ok(result);
    }

    method HLen(key: string, now: int) returns (r: StoreResult<int>)
      requires Valid()
      modifies this, lru, lru.footprint, expiry
      ensures Valid() && fresh(lru.footprint - old(lru.footprint))
      ensures View() == KeyStep(old(View()), now, key, Act.HLen).0
      ensures NumOutcome(r) == KeyStep(old(View()), now, key, Act.HLen).1
    {
      hide LRU.LRUTracker.Valid, ExpiryManager.Valid, State.Valid;
      hide LRU.Touched, Without, Table.Clear, Table.Set, Table.IsExpired;
      hide OMap.Put, OMap.Remove, OMap.Valid, Reverse, PutAll, RemoveAll, Flat;
      KeyStepValid(View(), now, key, Act.HLen);
      var gone := ExpireIfNeeded(key, now);
      if gone || key !in values.at {
        return Ok(0);
      }
      if !values.at[key].Hash? {
        return Mismatch;
      }
      lru.Touch(key);
      return Ok(|values.at[key].fields.keys|);
    }

    // ----- Active expiry -----

    method SweepExpired(sampleSize: int, now: int) returns (count: int)
      requires Valid()
      modifies this, lru, lru.footprint, expiry
      ensures Valid() && fresh(lru.footprint - old(lru.footprint))
      ensures View() == Step(old(View()), now, Sweep(sampleSize)).0
      ensures Num(count) == Step(old(View()), now, Sweep(sampleSize)).1
    {
      hide LRU.LRUTracker.Valid, ExpiryManager.Valid, State.Valid;
      hide LRU.Touched, Without, Table.Clear, Table.Set, Table.IsExpired;
      hide OMap.Put, OMap.Remove, OMap.Valid, Reverse, PutAll, RemoveAll, Flat;
      CollectValid(View(), now, sampleSize);
      var due := expiry.CollectExpired(now, sampleSize);
      ghost var s1 := View();
      var i := 0;
      while i < |due|
        invariant 0 <= i <= |due|
        invariant Valid() && lru.footprint == old(lru.footprint)
        invariant View() == Reclaim(s1, due[..i])
      {
        assert due[..i + 1] == due[..i] + [due[i]];
        ReclaimAppend(s1, due[..i], due[i]);
        ReclaimOneValid(View(), due[i]);
        RemoveKey(due[i]);
        onExpired := onExpired + [due[i]];
        i := i + 1;
      }
      assert due[..i] == due;
      return |due|;
    }

    /** The keys by recency, expired ones reclaimed on the way: one walk over the tracker's list. */
    method KeysMRU(now: int) returns (yielded: seq<string>)
      requires Valid()
      modifies this, lru, lru.footprint, expiry
      ensures Valid() && lru.footprint == old(lru.footprint)
      ensures yielded == Yielded(old(View()), now)
      ensures View() == Walked(old(View()), now)
    {
      hide LRU.LRUTracker.Valid, LRU.KeysOf, ExpiryManager.Valid, State.Valid, Gate, Table.IsExpired;
      ghost var s := View();
      ghost var n := FirstExpired(s.ttl, now, s.recency);
      lru.Follow(0);
      yielded := [];
      var current := lru.head;
      ghost var i := 0;
      ghost var reclaimed := false;
      while current != null
        invariant 0 <= i <= n
        invariant Valid() && lru.footprint == old(lru.footprint)
        invariant yielded == s.recency[..i]
        invariant reclaimed ==> current == null && i == n && View() == Walked(s, now)
        invariant !reclaimed ==> View() == s && |lru.chain| == |s.recency|
        invariant !reclaimed ==> if i < |s.recency| then current == lru.chain[i] else current == null
        decreases |s.recency| - i, if reclaimed then 0 else 1
      {
        lru.Follow(i);
        HeldByRecency(s, i);
        GateExpired(s, now, current.key);
        var gone := ExpireIfNeeded(current.key, now);
        if gone {
          // the walk goes on from a node whose links the removal has cleared
          reclaimed := true;
        } else {
          lru.Follow(i);
          yielded := yielded + [current.key];
          i := i + 1;
        }
        current := current.next;
      }
    }

    method Size() returns (n: nat)
      requires Valid()
      ensures n == |View().values.keys| <= maxKeys
    {
      hide LRU.LRUTracker.Valid, ExpiryManager.Valid, State.Valid;
      hide LRU.Touched, Without, Table.Clear, Table.Set, Table.IsExpired;
      hide OMap.Put, OMap.Remove, OMap.Valid, Reverse, PutAll, RemoveAll, Flat;
      Parts(View());
      SizeIsKeys(values);
      n := |values.at|;
    }
  }

  /** The capacity must be at least 1; anything else is refused. */
  method Create(maxKeys: int) returns (store: Option<InMemoryStore>)
    ensures store.Some? <==> maxKeys >= 1
    ensures store.Some? ==> fresh(store.value) && store.value.Valid() && store.value.View() == Empty(maxKeys)
  {
    if maxKeys < 1 {
      return None;
    }
    var created := new InMemoryStore(maxKeys);
    return Some(created);
  }
}
