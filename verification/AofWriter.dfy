/** The append-only file's writer: files as objects that a path and a descriptor refer to, and the
    rewrite cut at its awaits. Every method is proved to be the step of `AofSteps` it stands for. */
module Aof {
  import opened Options
  import opened Text
  import opened StoreSpec
  import opened StoreFacts
  import opened Memory
  import opened Printing
  import opened Compaction
  import opened AofSteps
  import LRU

  // ----- Printing the store -----

  /** What the calls that print one key do, and answer. */
  lemma {:induction false} PrintingCalls(s: State, now: int, k: string)
    requires s.Valid() && s.Has(k) && !s.ttl.IsExpired(k, now)
    ensures KeyStep(s, now, k, Act.TypeOf) == (s, KindIs(Some(KindOf(s.values.at[k]))))
    ensures KeyStep(s, now, k, Act.Ttl) == (s, Num(TtlOf(s, now, k)))
    ensures var v := s.values.at[k];
            var u := s.(recency := LRU.Touched(s.recency, k));
            match v
            case Str(x) => KeyStep(s, now, k, Act.Get) == (u, Outcome.Text(Some(x)))
            case List(l) => KeyStep(s, now, k, Act.LRange(0, -1)) == (u, Items(l))
            case Hash(h) => KeyStep(s, now, k, Act.HGetAll) == (u, Items(Flat(h.keys, h.at)))
  {
    hide State.Valid, Flat, LRU.Touched;
    match s.values.at[k]
    case List(l) => assert Slice(l, 0, -1) == l;
    case _ =>
  }

  lemma {:induction false} FlatEmpty(fields: seq<string>, at: map<string, string>)
    requires forall f :: f in fields ==> f in at
    ensures Flat(fields, at) == [] <==> fields == []
  {
  }

  lemma {:induction false} HashListed(s: State, k: string)
    requires s.Valid() && s.Has(k) && s.values.at[k].Hash?
    ensures forall f :: f in s.values.at[k].fields.keys ==> f in s.values.at[k].fields.at
  {
  }

  /** The lines for one key: its kind, its TTL, then its contents. */
  method PrintKey(store: InMemoryStore, key: string, now: int) returns (lines: seq<string>)
    requires store.Valid() && store.View().Has(key) && !store.View().ttl.IsExpired(key, now)
    modifies store, store.lru, store.lru.footprint, store.expiry
    ensures store.Valid() && fresh(store.lru.footprint - old(store.lru.footprint))
    ensures store.View() == old(store.View()).(recency := LRU.Touched(old(store.View()).recency, key))
    ensures lines == LinesFor(key, old(store.View()).values.at[key], TtlOf(old(store.View()), now, key))
  {
    hide InMemoryStore.Valid, KeyStep, LRU.Touched, Flat, TtlOf, IntText, Join, State.Valid;
    ghost var s := store.View();
    assert s.Valid() by { ViewValid(store); }
    PrintingCalls(s, now, key);
    var kind := store.KeyType(key, now);
    if kind.None? {
      assert false;
    }
    var ttl := store.Ttl(key, now);
    lines := [];
    match kind.value
    case StringKind =>
      var val := store.Get(key, now);
      if val.Some? {
        if ttl > 0 {
          lines := ["SET " + key + " " + val.value + " EX " + IntText(ttl)];
        } else {
          lines := ["SET " + key + " " + val.value];
        }
      }
    case ListKind =>
      var res := store.LRange(key, 0, -1, now);
      if res.Ok? && |res.value| > 0 {
        lines := ["RPUSH " + key + " " + Join(res.value)];
      }
      if ttl > 0 {
        lines := lines + ["EXPIRE " + key + " " + IntText(ttl)];
      }
    case HashKind =>
      HashListed(s, key);
      FlatEmpty(s.values.at[key].fields.keys, s.values.at[key].fields.at);
      var res := store.HGetAll(key, now);
      if res.Ok? && |res.value| > 0 {
        lines := ["HSET " + key + " " + Join(res.value)];
      }
      if ttl > 0 {
        lines := lines + ["EXPIRE " + key + " " + IntText(ttl)];
      }
  }

  lemma {:induction false} ViewValid(store: InMemoryStore)
    requires store.Valid()
    ensures store.View().Valid()
  {
  }

  /** All lines, in the order of the keys. */
  method BuildCommands(store: InMemoryStore, now: int) returns (commands: seq<string>)
    requires store.Valid()
    modifies store, store.lru, store.lru.footprint, store.expiry
    ensures store.Valid() && fresh(store.lru.footprint - old(store.lru.footprint))
    ensures old(store.View()).Valid() && commands == Compact(old(store.View()), now)
    ensures store.View() == Compacted(old(store.View()), now)
  {
    hide InMemoryStore.Valid, Purge, LinesFor, TtlOf, State.Valid, LRU.Touched;
    ghost var s := store.View();
    ViewValid(store);
    PurgeListed(s, now);
    ghost var p := Purge(s, now, s.values.keys);
    MatchingAll(p.values.keys);
    var keys := store.MatchingKeys("*", now);
    commands := [];
    var i := 0;
    assert keys[..0] == [];
    while i < |keys|
      invariant 0 <= i <= |keys| && keys == p.values.keys
      invariant store.Valid() && fresh(store.lru.footprint - old(store.lru.footprint))
      invariant store.View() == p.(recency := TouchAll(p.recency, keys[..i]))
      invariant commands == LinesForAll(p, now, keys[..i])
    {
      assert keys[i] in keys && p.Has(keys[i]);
      assert keys[..i + 1][..i] == keys[..i];
      SameTtl(p, store.View(), now, keys[i]);
      var lines := PrintKey(store, keys[i], now);
      commands := commands + lines;
      i := i + 1;
    }
    assert keys[..i] == keys;
  }

  lemma {:induction false} SameTtl(p: State, q: State, now: int, k: string)
    requires p.ttl == q.ttl
    ensures TtlOf(p, now, k) == TtlOf(q, now, k)
    ensures p.ttl.IsExpired(k, now) == q.ttl.IsExpired(k, now)
  {
  }

  // ----- Files and the writer -----

  /** A file on disk: paths and descriptors refer to it, and a rename changes only which. */
  class LogFile {
    var lines: seq<string>

    constructor (lines: seq<string>)
      ensures this.lines == lines
    {
      this.lines := lines;
    }
  }

  /** The awaits of a rewrite. */
  datatype Suspension = Nowhere | AtWrite | AtAppend | AtRename

  class AofWriter {
    /** The files that the append-only path and the temporary path name. */
    var file: LogFile
    var temp: LogFile?
    /** What the descriptor refers to, and whether it has been closed. */
    var fd: LogFile?
    var closed: bool
    var rewriteInProgress: bool
    var rewriteBuffer: Option<seq<string>>
    /** The suspended rewrite: where it waits, and its variables. */
    var suspended: Suspension
    var commands: seq<string>
    var buf: seq<string>

    ghost predicate Valid()
      reads this
    {
      && (fd != null && !closed ==> fd == file)
      && (rewriteInProgress <==> !suspended.Nowhere?)
      && (rewriteBuffer.Some? <==> suspended.AtWrite?)
      && (suspended.AtAppend? || suspended.AtRename? ==> temp != null && temp != file)
    }

    ghost function View(): Writer
      requires Valid()
      reads this, file, temp
    {
      Writer(file.lines,
             if fd == null then Unset else if closed then Stale else Open,
             match suspended
             case Nowhere => Idle
             case AtWrite => Building(commands, rewriteBuffer.value)
             case AtAppend => Appending(temp.lines, buf)
             case AtRename => Renaming(temp.lines))
    }

    constructor (file: LogFile)
      ensures Valid() && this.file == file && View() == Writer(file.lines, Unset, Idle)
    {
      this.file := file;
      temp, fd, closed := null, null, false;
      rewriteInProgress, rewriteBuffer, suspended := false, None, Nowhere;
      commands, buf := [], [];
    }

    method Start()
      requires Valid()
      modifies this
      ensures Valid() && file == old(file) && temp == old(temp)
      ensures View() == old(View()).(fd := if old(View()).fd.Unset? then Open else old(View()).fd)
    {
      if fd != null {
        return;
      }
      fd, closed := file, false;
    }

    /** `ok` is false if the write throws. */
    method Write(line: string) returns (ok: bool)
      requires Valid()
      modifies this, file
      ensures Valid() && file == old(file) && temp == old(temp)
      ensures View() == Append(old(View()), Trim(line))
      ensures ok <==> !old(View()).fd.Stale?
    {
      if fd == null {
        return true;
      }
      if closed {
        return false;
      }
      fd.lines := fd.lines + [Trim(line)];
      if rewriteBuffer.Some? {
        rewriteBuffer := Some(rewriteBuffer.value + [Trim(line)]);
      }
      return true;
    }

    /** The rewrite up to its first await: print the whole store, which no command interrupts. */
    method Rewrite(store: InMemoryStore, now: int) returns (ok: bool)
      requires Valid() && store.Valid()
      modifies this, store, store.lru, store.lru.footprint, store.expiry
      ensures Valid() && store.Valid() && fresh(store.lru.footprint - old(store.lru.footprint))
      ensures file == old(file) && temp == old(temp)
      ensures old(store.View()).Valid() && ok == old(View()).phase.Idle?
      ensures View() == Begin(old(View()), Compact(old(store.View()), now))
      ensures store.View() == if ok then Compacted(old(store.View()), now) else old(store.View())
    {
      hide InMemoryStore.Valid, Compacted, Compact, State.Valid;
      ViewValid(store);
      if rewriteInProgress {
        return false;
      }
      rewriteInProgress := true;
      rewriteBuffer := Some([]);
      commands := BuildCommands(store, now);
      suspended := AtWrite;
      return true;
    }

    /** The rewrite after an await that succeeded, up to the next one or the end. */
    method Resumed()
      requires Valid()
      modifies this, temp
      ensures Valid() && (file == old(file) || file == old(temp))
      ensures temp == old(temp) || temp == null || fresh(temp)
      ensures View() == Resume(old(View()))
    {
      match suspended
      case Nowhere =>
      case AtWrite =>
        temp := new LogFile(commands);
        buf := rewriteBuffer.value;
        rewriteBuffer := None;
        if |buf| > 0 {
          suspended := AtAppend;
        } else {
          CloseFile();
        }
      case AtAppend =>
        temp.lines := temp.lines + buf;
        CloseFile();
      case AtRename =>
        file, temp := temp, null;
        fd, closed := file, false;
        rewriteInProgress, suspended := false, Nowhere;
    }

    /** Close the old file, then wait for the rename. Closing it twice throws. */
    method CloseFile()
      requires fd != null && !closed ==> fd == file
      requires rewriteInProgress && rewriteBuffer.None? && temp != null && temp != file
      modifies this
      ensures Valid() && file == old(file) && temp == old(temp)
      ensures var before := if old(fd) == null then Unset else if old(closed) then Stale else Open;
              View() == CloseFor(Writer(file.lines, before, Idle), temp.lines)
    {
      if fd != null {
        if closed {
          rewriteInProgress, suspended := false, Nowhere;
          return;
        }
        closed := true;
      }
      suspended := AtRename;
    }

    /** The rewrite after an await that failed. */
    method Failed()
      requires Valid()
      modifies this
      ensures Valid() && file == old(file) && temp == old(temp)
      ensures View() == Fail(old(View()))
    {
      rewriteInProgress, rewriteBuffer, suspended := false, None, Nowhere;
    }
  }
}
