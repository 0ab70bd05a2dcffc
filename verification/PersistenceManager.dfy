/** The snapshot manager as an object: saving cut at its awaits, restoring entry by entry. Every
    method is proved to be the step of `Persistence` it stands for. */
module Snapshots {
  import opened Options
  import opened OrderedMap
  import opened StoreSpec
  import opened StoreFacts
  import opened Memory
  import opened Printing
  import opened Compaction
  import opened Dumping
  import opened Restore
  import Aof
  import LRU

  /** The fields of a hash as they are listed. */
  lemma {:induction false} FlatAt(fields: seq<string>, at: map<string, string>)
    requires forall f :: f in fields ==> f in at
    ensures |Flat(fields, at)| == 2 * |fields|
    ensures forall i :: 0 <= i < |fields| ==>
              Flat(fields, at)[2 * i] == fields[i] && Flat(fields, at)[2 * i + 1] == at[fields[i]]
  {
    if fields != [] {
      assert fields[0] in fields;
      FlatAt(fields[1..], at);
      var rest := Flat(fields[1..], at);
      forall i | 0 < i < |fields|
        ensures Flat(fields, at)[2 * i] == fields[i] && Flat(fields, at)[2 * i + 1] == at[fields[i]]
      {
        assert rest[2 * (i - 1)] == fields[1..][i - 1] && rest[2 * (i - 1) + 1] == at[fields[1..][i - 1]];
      }
    }
  }

  /** The fields of a well-formed hash, and where they stand in its flat form. */
  lemma {:induction false} FieldsFlat(h: OMap<string>, arr: seq<string>)
    requires h.Valid() && arr == Flat(h.keys, h.at)
    ensures forall f :: f in h.keys <==> f in h.at
    ensures |arr| == 2 * |h.keys|
  {
    FlatAt(h.keys, h.at);
  }

  lemma {:induction false} FieldFlat(h: OMap<string>, arr: seq<string>, i: nat)
    requires h.Valid() && arr == Flat(h.keys, h.at) && 2 * i < |arr|
    ensures i < |h.keys| && h.keys[i] in h.at && 2 * i + 1 < |arr|
    ensures arr[2 * i] == h.keys[i] && arr[2 * i + 1] == h.at[h.keys[i]]
  {
    FieldsFlat(h, arr);
    assert h.keys[i] in h.keys;
    FlatAt(h.keys, h.at);
  }

  /** Property by property into an object; one name is not taken. */
  method ToObject(arr: seq<string>, ghost h: OMap<string>) returns (obj: map<string, string>)
    requires h.Valid() && arr == Flat(h.keys, h.at)
    ensures obj == h.at - {PROTO}
  {
    hide OMap.Valid, Flat;
    FieldsFlat(h, arr);
    obj := map[];
    var i := 0;
    ghost var n := 0;
    while i < |arr|
      invariant n <= |h.keys| && i == 2 * n
      invariant forall f :: f in obj ==> f != PROTO && f in h.at && obj[f] == h.at[f]
      invariant forall j :: 0 <= j < n && h.keys[j] != PROTO ==> h.keys[j] in obj
    {
      FieldFlat(h, arr, n);
      if arr[i] != PROTO {
        obj := obj[arr[i] := arr[i + 1]];
      }
      i, n := i + 2, n + 1;
    }
  }

  /** One key's contents. */
  method SerializeValue(store: InMemoryStore, key: string, now: int) returns (value: Option<Saved>)
    requires store.Valid() && store.View().Has(key) && !store.View().ttl.IsExpired(key, now)
    modifies store, store.lru, store.lru.footprint, store.expiry
    ensures store.Valid() && fresh(store.lru.footprint - old(store.lru.footprint))
    ensures store.View() == old(store.View()).(recency := LRU.Touched(old(store.View()).recency, key))
    ensures value == Some(SavedOf(old(store.View()).values.at[key]))
  {
    hide InMemoryStore.Valid, KeyStep, LRU.Touched, Flat, State.Valid, OMap.Valid;
    ghost var s := store.View();
    Aof.ViewValid(store);
    Aof.PrintingCalls(s, now, key);
    var kind := store.KeyType(key, now);
    if kind.None? {
      return None;
    }
    match kind.value {
      case StringKind =>
        var found := store.Get(key, now);
        return if found.None? then None else Some(SavedText(found.value));
      case ListKind =>
        var res := store.LRange(key, 0, -1, now);
        return if res.Mismatch? then None else Some(SavedList(res.value));
      case HashKind =>
        HashFields(s, key);
        var res := store.HGetAll(key, now);
        if res.Mismatch? {
          return None;
        }
        var obj := ToObject(res.value, s.values.at[key].fields);
        return Some(SavedHash(obj));
    }
  }

  /** One key's dump entry: its contents, then its remaining seconds. */
  method SerializeKey(store: InMemoryStore, key: string, now: int) returns (entry: Option<Serialized>)
    requires store.Valid() && store.View().Has(key) && !store.View().ttl.IsExpired(key, now)
    modifies store, store.lru, store.lru.footprint, store.expiry
    ensures store.Valid() && fresh(store.lru.footprint - old(store.lru.footprint))
    ensures store.View() == old(store.View()).(recency := LRU.Touched(old(store.View()).recency, key))
    ensures entry == Some(Serialized(SavedOf(old(store.View()).values.at[key]), TtlSaved(old(store.View()), now, key)))
  {
    hide InMemoryStore.Valid, KeyStep, LRU.Touched, Flat, State.Valid, SavedOf;
    var value := SerializeValue(store, key, now);
    if value.None? {
      return None;
    }
    Aof.ViewValid(store);
    Aof.PrintingCalls(store.View(), now, key);
    var ttl := store.Ttl(key, now);
    return Some(Serialized(value.value, if ttl >= 0 then Some(ttl) else None));
  }

  /** The dump, key by key. */
  method BuildDump(store: InMemoryStore, now: int) returns (dump: Dump)
    requires store.Valid()
    modifies store, store.lru, store.lru.footprint, store.expiry
    ensures store.Valid() && fresh(store.lru.footprint - old(store.lru.footprint))
    ensures store.View() == Compacted(old(store.View()), now)
    ensures dump == DumpOf(store.View(), now)
  {
    hide InMemoryStore.Valid, Purge, State.Valid, LRU.Touched, SavedOf, TtlSaved, DumpPart, DumpOf, TouchAll;
    ghost var s := store.View();
    Aof.ViewValid(store);
    PurgeListed(s, now);
    ghost var p := Purge(s, now, s.values.keys);
    MatchingAll(p.values.keys);
    var keys := store.MatchingKeys("*", now);
    dump := map[];
    var i := 0;
    assert keys[..0] == [];
    NothingDumped(p, now);
    NothingTouched(p.recency);
    while i < |keys|
      invariant 0 <= i <= |keys| && keys == p.values.keys
      invariant store.Valid() && fresh(store.lru.footprint - old(store.lru.footprint))
      invariant store.View() == p.(recency := TouchAll(p.recency, keys[..i]))
      invariant dump == DumpPart(p, now, keys[..i])
    {
      assert keys[i] in keys && p.Has(keys[i]);
      TouchNext(p.recency, keys, i);
      DumpNext(p, now, keys, i);
      SameSaved(p, store.View(), now, keys[i]);
      var entry := SerializeKey(store, keys[i], now);
      if entry.Some? && keys[i] != PROTO {
        dump := dump[keys[i] := entry.value];
      }
      i := i + 1;
    }
    assert keys[..i] == keys;
    DumpWhole(p, store.View(), now);
  }

  lemma {:induction false} SameSaved(p: State, q: State, now: int, k: string)
    requires p.ttl == q.ttl
    ensures TtlSaved(p, now, k) == TtlSaved(q, now, k)
    ensures p.ttl.IsExpired(k, now) == q.ttl.IsExpired(k, now)
  {
  }

  /** The dump of the given keys. */
  function DumpPart(p: State, now: int, keys: seq<string>): Dump {
    map k | k in keys && k in p.values.at && k != PROTO :: Serialized(SavedOf(p.values.at[k]), TtlSaved(p, now, k))
  }

  lemma {:induction false} NothingDumped(p: State, now: int)
    ensures DumpPart(p, now, []) == map[]
  {
  }

  lemma {:induction false} DumpNext(p: State, now: int, keys: seq<string>, i: nat)
    requires i < |keys| && p.Has(keys[i])
    ensures var k := keys[i];
            DumpPart(p, now, keys[..i + 1]) ==
            if k == PROTO then DumpPart(p, now, keys[..i])
            else DumpPart(p, now, keys[..i])[k := Serialized(SavedOf(p.values.at[k]), TtlSaved(p, now, k))]
  {
  }

  lemma {:induction false} DumpWhole(p: State, q: State, now: int)
    requires p.Valid() && p.ttl == q.ttl && p.values == q.values
    ensures DumpPart(p, now, p.values.keys) == DumpOf(q, now)
  {
  }

  class PersistenceManager {
    const store: InMemoryStore
    /** The dump file, once there is one. */
    var disk: Option<Dump>
    var lastSavedDirtyCount: nat
    var saveInProgress: bool
    /** The variables of a save that waits for the file to be written. */
    var dump: Dump
    var currentDirtyCount: nat

    ghost function View(): Snapshot
      reads this
    {
      Snapshot(disk, lastSavedDirtyCount, if saveInProgress then Some((dump, currentDirtyCount)) else None)
    }

    constructor (store: InMemoryStore, disk: Option<Dump>)
      ensures this.store == store && View() == Snapshot(disk, 0, None)
    {
      this.store, this.disk := store, disk;
      lastSavedDirtyCount, saveInProgress := 0, false;
      dump, currentDirtyCount := map[], 0;
    }

    /** A save up to its first await. */
    method Save(now: int) returns (ok: bool)
      requires store.Valid()
      modifies this, store, store.lru, store.lru.footprint, store.expiry
      ensures store.Valid() && fresh(store.lru.footprint - old(store.lru.footprint))
      ensures (store.View(), View()) == Taken(old(store.View()), old(View()), now)
      ensures ok == !old(saveInProgress)
    {
      hide InMemoryStore.Valid, Compacted, DumpOf;
      if saveInProgress {
        return false;
      }
      saveInProgress := true;
      currentDirtyCount := store.dirtyCount;
      dump := BuildDump(store, now);
      return true;
    }

    /** The timer's check: save only if the count has moved. */
    method CheckAndSave(now: int)
      requires store.Valid()
      modifies this, store, store.lru, store.lru.footprint, store.expiry
      ensures store.Valid() && fresh(store.lru.footprint - old(store.lru.footprint))
      ensures (store.View(), View()) == Checked(old(store.View()), old(View()), now)
    {
      hide InMemoryStore.Valid, Taken;
      if store.dirtyCount != lastSavedDirtyCount {
        var _ := Save(now);
      }
    }

    /** The file has been written and renamed. */
    method Saved()
      requires saveInProgress
      modifies this
      ensures View() == Finished(old(View()))
    {
      disk := Some(dump);
      lastSavedDirtyCount := currentDirtyCount;
      saveInProgress := false;
    }

    /** Writing or renaming has failed. */
    method SaveFailed()
      modifies this
      ensures View() == Abandoned(old(View()))
    {
      saveInProgress := false;
    }

    method RestoreOne(e: Record, now: int) returns (restored: bool)
      requires store.Valid()
      modifies store, store.lru, store.lru.footprint, store.expiry
      ensures store.Valid() && fresh(store.lru.footprint - old(store.lru.footprint))
      ensures store.View() == RestoreRecord(old(store.View()), now, e)
      ensures restored <==> !Skipped(e)
    {
      hide InMemoryStore.Valid, KeyStep;
      if e.ttl.Some? && e.ttl.value <= 0 {
        return false;
      }
      match e.value {
        case LoadedText(text) =>
          store.Set(e.key, text, e.ttl, now);
        case LoadedList(elems) =>
          var _ := store.RPush(e.key, elems, now);
          if e.ttl.Some? {
            var _ := store.Expire(e.key, e.ttl.value, now);
          }
        case LoadedHash(pairs) =>
          var _ := store.HSet(e.key, pairs, now);
          if e.ttl.Some? {
            var _ := store.Expire(e.key, e.ttl.value, now);
          }
      }
      return true;
    }

    /** Restore the file, its entries in the order `records`; without a file nothing happens. */
    method Restore(records: seq<Record>, now: int) returns (restoredCount: nat)
      requires store.Valid() && (disk.Some? ==> Reads(records, disk.value))
      modifies this, store, store.lru, store.lru.footprint, store.expiry
      ensures store.Valid() && fresh(store.lru.footprint - old(store.lru.footprint))
      ensures disk == old(disk) && saveInProgress == old(saveInProgress)
      ensures disk.None? ==> View() == old(View()) && store.View() == old(store.View()) && restoredCount == 0
      ensures disk.Some? ==>
                && store.View() == RestoreAll(old(store.View()), now, records)
                && lastSavedDirtyCount == store.View().dirty
                && restoredCount == |Kept(records)|
    {
      hide InMemoryStore.Valid, RestoreRecord, Reads;
      if disk.None? {
        return 0;
      }
      restoredCount := 0;
      var i := 0;
      while i < |records|
        invariant 0 <= i <= |records|
        invariant store.Valid() && fresh(store.lru.footprint - old(store.lru.footprint))
        invariant disk == old(disk) && saveInProgress == old(saveInProgress)
        invariant store.View() == RestoreAll(old(store.View()), now, records[..i])
        invariant restoredCount == |Kept(records[..i])|
      {
        assert records[..i + 1][..i] == records[..i];
        var restored := RestoreOne(records[i], now);
        if restored {
          restoredCount := restoredCount + 1;
        }
        i := i + 1;
      }
      assert records[..i] == records;
      lastSavedDirtyCount := store.dirtyCount;
    }
  }
}
