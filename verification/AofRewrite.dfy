/** Rewriting the append-only file while commands keep running, as the steps between the awaits:
    the file always replays to the live data, as long as no write falls into the gap between
    detaching the rewrite buffer and reopening the file. */
module AofRewrite {
  import opened Sequences
  import opened Text
  import opened StoreSpec
  import opened StoreFacts
  import opened CommandParser
  import opened AofSteps
  import opened Execution
  import opened Dumping
  import opened LogReplay
  import opened Printing
  import opened Compaction
  import opened Rebuild
  import opened EngineRuns
  import Conservation
  import Expiry
  import opened StoreRelations

  // ----- The file keeps up -----

  /** Replaying `file` from nothing at `t` gives the data of `s`. */
  ghost predicate Tracks(s: State, file: seq<string>, t: int) {
    var b := Replay(Empty(s.capacity), t, file);
    SameData(s, b) && FreshAt(b, t)
  }

  /** The file at the path, and the one a pending rewrite would leave, replay to the live data. */
  ghost predicate Current(g: Engine, t: int) {
    Tracks(g.store, g.writer.aof, t) && Tracks(g.store, PendingFile(g.writer), t)
  }

  /** The write of a new key into a full store. */
  predicate Evicts(s: State, c: Command) {
    c.OnData? && Full(s, c.key) && Creates(c.act)
  }

  /** When the record `b` of the live store keeps up with one command: as `Keeps` says, and a command
      that prints the whole store must not find a held key expired. */
  predicate KeepsUp(g: Engine, b: State, now: int, c: Command) {
    match c
    case BgRewriteAof => g.writer.phase.Idle? ==> FreshAt(g.store, now)
    case BgSave => g.snapshot.saving.None? ==> FreshAt(g.store, now)
    case _ => Keeps(g.store, b, now, c)
  }

  /** The event disturbs nothing: no expiry, eviction or overwriting HSET that the file would miss, and
      no line logged in the gap. */
  predicate Smooth(g: Engine, e: Event) {
    match e
    case Command(now, item) =>
      var c := item.command;
      && KeepsUp(g, g.store, now, c) && !Evicts(g.store, c)
      && (Execute(g.store, now, c).logged ==> Attached(g.writer))
    case Beside(tick) => Idles(g, tick)
  }

  /** What happens beside the commands reclaims no key. */
  predicate Idles(g: Engine, tick: Tick) {
    match tick
    case Swept(now, limit) => Expiry.Collect(g.store.ttl, now, limit).0 == []
    case Checkpoint(now) =>
      g.store.dirty != g.snapshot.lastSaved && g.snapshot.saving.None? ==> FreshAt(g.store, now)
    case _ => true
  }

  predicate SmoothRun(g: Engine, events: seq<Event>) {
    events != [] ==>
      var n := |events| - 1;
      SmoothRun(g, events[..n]) && Smooth(RunEngine(g, events[..n]), events[n])
  }

  lemma {:induction false} SameDataTrans(a: State, b: State, c: State)
    requires SameData(a, b) && SameData(b, c)
    ensures SameData(a, c)
  {
    hide State.Valid;
  }

  lemma {:induction false} SameDataSym(a: State, b: State)
    requires SameData(a, b)
    ensures SameData(b, a)
  {
    hide State.Valid;
  }

  /** A command of a handler with a store alone extends the record by its line, if it is logged: the
      longer record tracks the new data exactly when the replica keeps up. */
  lemma {:induction false} TrackExecute(s: State, file: seq<string>, now: int, t: int, item: Item)
    requires Tracks(s, file, t) && Conservation.NoneEmpty(s) && Parse(item.line) == Parsed(item.command)
    ensures var d := Execute(s, now, item.command);
            Tracks(d.state, if d.logged then file + [Trim(item.line)] else file, t)
            <==> Keeps(s, Replay(Empty(s.capacity), t, file), now, item.command)
  {
    hide State.Valid, Parse, Execute, Keeps, Conservation.NoneEmpty, FreshAt, WellFormedCommand;
    hide Replay, ReplayLine;
    var b := Replay(Empty(s.capacity), t, file);
    ParsedWellFormed(item.line);
    CommandStep(s, b, now, t, item.command);
    LoggedLine(b, t, item);
    ReplaySnoc(Empty(s.capacity), t, file, Trim(item.line));
    SameDataValid(s, b);
    ExecuteValid(s, now, item.command);
  }

  /** Without an eviction it does not matter what the replica is. */
  lemma {:induction false} AnyReplica(a: State, b: State, c: State, now: int, command: Command)
    requires !Evicts(a, command)
    ensures Keeps(a, b, now, command) <==> Keeps(a, c, now, command)
  {
    hide SilentOverwrite, FreshAt;
  }

  lemma {:induction false} SameDataValid(a: State, b: State)
    requires SameData(a, b)
    ensures a.Valid() && b.Valid()
  {
    hide State.Valid;
  }

  /** A rewrite starts with a file that tracks what it leaves of the store. */
  lemma {:induction false} TrackCompact(s: State, now: int, t: int)
    requires Healthy(s, now)
    ensures Tracks(Compacted(s, now), Compact(s, now), t)
  {
    hide State.Valid, Replay, Storable, Purge, Compacted, Compact, Conservation.NoneEmpty, FreshAt;
    CompactionSameData(s, now, t);
    CompactedValid(s, now);
  }

  /** And it changes the data exactly if a held key has expired. */
  lemma {:induction false} CompactedExact(s: State, b: State, now: int)
    requires SameData(s, b)
    ensures SameData(Compacted(s, now), b) <==> FreshAt(s, now)
  {
    hide State.Valid, Purge, FreshAt;
    SameDataValid(s, b);
    CompactedValid(s, now);
    PurgeExact(s, b, now);
    PurgeListed(s, now);
  }

  /** A command of the engine extends the record by its line, if it is logged: the longer record tracks
      the new data exactly when the record keeps up. */
  lemma {:induction false} TrackCommand(g: Engine, file: seq<string>, now: int, t: int, item: Item)
    requires Tracks(g.store, file, t) && Conservation.NoneEmpty(g.store)
    requires Parse(item.line) == Parsed(item.command)
    ensures var e := Command(now, item);
            Tracks(StepEngine(g, e).store, file + LineOf(g.store, e), t)
            <==> KeepsUp(g, Replay(Empty(g.store.capacity), t, file), now, item.command)
  {
    hide State.Valid, Parse, Keeps, Conservation.NoneEmpty, FreshAt, Replay, Tracks, Compacted, Compact;
    hide ExecuteData, ExecuteGet, Step, PubSub.Subscribe, PubSub.Unsubscribe, PubSub.Deliveries;
    NothingAppended(file);
    match item.command
    case BgRewriteAof => TracksSame(g.store, now, file, t);
    case BgSave => TracksSame(g.store, now, file, t);
    case _ => TrackExecute(g.store, file, now, t, item);
  }

  lemma {:induction false} TracksSame(s: State, now: int, file: seq<string>, t: int)
    requires Tracks(s, file, t)
    ensures Tracks(Compacted(s, now), file, t) <==> FreshAt(s, now)
  {
    hide State.Valid, Replay, Compacted;
    CompactedExact(s, Replay(Empty(s.capacity), t, file), now);
    SameDataValid(s, Replay(Empty(s.capacity), t, file));
    CompactedValid(s, now);
  }

  /** A sweep changes the data exactly if it reclaims a key. */
  lemma {:induction false} SweepExact(s: State, b: State, now: int, limit: int)
    requires SameData(s, b)
    ensures SameData(Step(s, now, Sweep(limit)).0, b) <==> Expiry.Collect(s.ttl, now, limit).0 == []
  {
    hide State.Valid, Reclaim, Keep, Restricts;
    SameDataValid(s, b);
    StepValid(s, now, Sweep(limit));
    CollectValid(s, now, limit);
    CollectedDeadlines(s, now, limit);
    var (due, t) := Expiry.Collect(s.ttl, now, limit);
    var moved := s.(ttl := t);
    NothingReclaimed(moved);
    if due != [] {
      ReclaimRestricts(moved, due);
      Conservation.SampleHeld(s, now, limit);
      assert due[0] in due && s.Has(due[0]);
    }
  }

  lemma {:induction false} NothingReclaimed(s: State)
    ensures Reclaim(s, []) == s
  {
  }

  lemma {:induction false} TracksSwept(s: State, now: int, limit: int, file: seq<string>, t: int)
    requires Tracks(s, file, t)
    ensures Tracks(Step(s, now, Sweep(limit)).0, file, t) <==> Expiry.Collect(s.ttl, now, limit).0 == []
  {
    hide State.Valid, Replay, Step;
    SameDataValid(s, Replay(Empty(s.capacity), t, file));
    SweepExact(s, Replay(Empty(s.capacity), t, file), now, limit);
    StepValid(s, now, Sweep(limit));
  }

  /** What happens beside the commands leaves a record of the data intact exactly if it reclaims no
      key. */
  lemma {:induction false} TracksBeside(g: Engine, tick: Tick, file: seq<string>, t: int)
    requires Tracks(g.store, file, t)
    ensures Tracks(Ticked(g, tick).store, file, t) <==> Idles(g, tick)
  {
    hide Tracks, Step, FreshAt, Compacted;
    match tick
    case Swept(now, limit) => TracksSwept(g.store, now, limit, file, t);
    case Checkpoint(now) => TracksSame(g.store, now, file, t);
    case _ =>
  }

  /** What one event must be like for both files to go on tracking the data: a logged line that does
      not reach a file must be harmless, any other command must be one that the file's record keeps up
      with, and nothing beside the commands may reclaim a key. */
  predicate FilesKeep(g: Engine, e: Event, t: int) {
    match e
    case Command(now, item) =>
      var c := item.command;
      var missed := Execute(g.store, now, c).logged;
      && (if missed && !g.writer.fd.Open? then Spared(g.store, now, c)
          else KeepsUp(g, Replay(Empty(g.store.capacity), t, g.writer.aof), now, c))
      && (if c.BgRewriteAof? && g.writer.phase.Idle? then true
          else if missed && !Attached(g.writer) then Spared(g.store, now, c)
          else KeepsUp(g, Replay(Empty(g.store.capacity), t, PendingFile(g.writer)), now, c))
    case Beside(tick) => Idles(g, tick)
  }

  predicate Spared(s: State, now: int, c: Command) {
    c.OnData? && Harmless(s, now, c.key, c.act)
  }

  /** The two files after an event. */
  lemma {:induction false} FilesAfter(g: Engine, e: Event)
    ensures var w, u, line := g.writer, StepEngine(g, e).writer, LineOf(g.store, e);
            match e
            case Command(now, item) =>
              if item.command.BgRewriteAof? && w.phase.Idle? then
                u.aof == w.aof && PendingFile(u) == Compact(g.store, now) && line == []
              else
                && u.aof == (if line != [] && !w.fd.Open? then w.aof else w.aof + line)
                && PendingFile(u) == (if line != [] && !Attached(w) then PendingFile(w) else PendingFile(w) + line)
            case Beside(tick) =>
              && (u.aof == w.aof || u.aof == PendingFile(w))
              && (PendingFile(u) == PendingFile(w) || PendingFile(u) == w.aof)
  {
    hide Execute, Compact, Compacted, Step, PubSub.Subscribe, PubSub.Unsubscribe, PubSub.Deliveries;
    match e
    case Command(now, item) =>
      NothingAppended(g.writer.aof);
      NothingAppended(PendingFile(g.writer));
      NothingAppended(Compact(g.store, now));
      StoreCommands(g.store, now, item.command);
      if LineOf(g.store, e) != [] && Attached(g.writer) {
        AppendBoth(g.writer, Trim(item.line));
      }
    case Beside(tick) => ResumeKeeps(g.writer);
  }

  /** Nothing but data commands is logged. */
  lemma {:induction false} StoreCommands(s: State, now: int, c: Command)
    ensures Execute(s, now, c).logged ==> c.OnData?
  {
    if Execute(s, now, c).logged {
      OnlyDataLogged(s, now, c);
    }
  }

  /** Both files track the data after an event if and only if `FilesKeep` says so of the state before. */
  lemma {:induction false} StepExact(g: Engine, e: Event, last: int, t: int)
    requires Current(g, t) && Healthy(g.store, last)
    requires last <= TimeOf(e, last) && (e.Command? ==> Parse(e.item.line) == Parsed(e.item.command))
    ensures Current(StepEngine(g, e), t) <==> FilesKeep(g, e, t)
  {
    hide State.Valid, Storable, Parse, FreshAt, Execute, KeepsUp, Idles, Ticked, Tracks, Compacted, Compact;
    hide ExecuteItem, PendingFile, Attached, Spared, Replay, Conservation.NoneEmpty;
    FilesAfter(g, e);
    match e
    case Command(now, item) =>
      HealthyLater(g.store, last, now);
      NothingAppended(g.writer.aof);
      NothingAppended(PendingFile(g.writer));
      CommandExact(g, now, item, t, g.writer.aof);
      CommandExact(g, now, item, t, PendingFile(g.writer));
      BeginExact(g, now, item, t);
    case Beside(tick) =>
      TracksBeside(g, tick, g.writer.aof, t);
      TracksBeside(g, tick, PendingFile(g.writer), t);
  }

  /** A command and one record of the data, extended by its line or not. */
  lemma {:induction false} CommandExact(g: Engine, now: int, item: Item, t: int, file: seq<string>)
    requires Tracks(g.store, file, t) && Conservation.NoneEmpty(g.store)
    requires Parse(item.line) == Parsed(item.command)
    ensures var e := Command(now, item);
            var u, line := StepEngine(g, e).store, LineOf(g.store, e);
            && (Tracks(u, file + line, t) <==> KeepsUp(g, Replay(Empty(g.store.capacity), t, file), now, item.command))
            && (line != [] ==> (Tracks(u, file, t) <==> Spared(g.store, now, item.command)))
            && (line != [] <==> Execute(g.store, now, item.command).logged)
  {
    hide State.Valid, Parse, Execute, KeepsUp, Tracks, Replay, Harmless, Conservation.NoneEmpty;
    TrackCommand(g, file, now, t, item);
    StoreCommands(g.store, now, item.command);
    if LineOf(g.store, Command(now, item)) != [] {
      MissedLine(g.store, now, item, file, t);
    }
  }

  /** A rewrite that begins leaves a pending file that tracks the data, whatever was reclaimed. */
  lemma {:induction false} BeginExact(g: Engine, now: int, item: Item, t: int)
    requires Healthy(g.store, now)
    ensures item.command.BgRewriteAof? && g.writer.phase.Idle? ==>
              Tracks(StepEngine(g, Command(now, item)).store, Compact(g.store, now), t)
  {
    hide Healthy, Tracks, Compacted, Compact, Execute;
    TrackCompact(g.store, now, t);
  }

  /** A smooth event keeps both files current. */
  lemma {:induction false} SmoothKeeps(g: Engine, e: Event, t: int)
    requires Smooth(g, e)
    ensures FilesKeep(g, e, t)
  {
    hide Keeps, Evicts, Execute, FreshAt, Replay, Harmless, Idles;
    if e.Command? {
      AnyReplica(g.store, g.store, Replay(Empty(g.store.capacity), t, g.writer.aof), e.now, e.item.command);
      AnyReplica(g.store, g.store, Replay(Empty(g.store.capacity), t, PendingFile(g.writer)), e.now, e.item.command);
    }
  }

  lemma {:induction false} StepCurrent(g: Engine, e: Event, last: int, t: int)
    requires Current(g, t) && Healthy(g.store, last) && Smooth(g, e)
    requires last <= TimeOf(e, last) && (e.Command? ==> Parse(e.item.line) == Parsed(e.item.command))
    ensures Current(StepEngine(g, e), t)
  {
    hide Healthy, Parse, Current, Smooth, FilesKeep, StepEngine;
    SmoothKeeps(g, e, t);
    StepExact(g, e, last, t);
  }

  /** Every event of the run keeps both files current. */
  predicate KeptRun(g: Engine, events: seq<Event>, t: int) {
    events != [] ==>
      var n := |events| - 1;
      KeptRun(g, events[..n], t) && FilesKeep(RunEngine(g, events[..n]), events[n], t)
  }

  /** At every point of the run both files replay to the live data. */
  ghost predicate AlwaysCurrent(g: Engine, events: seq<Event>, t: int) {
    forall n :: 0 <= n <= |events| ==> Current(RunEngine(g, events[..n]), t)
  }

  /** Exactly when the file is current at every point of a run, however many rewrites, failed ones
      included, fall into it: when every event is one that `FilesKeep` allows. */
  lemma {:induction false} AlwaysCurrentExact(g: Engine, events: seq<Event>, start: int, t: int)
    requires Current(g, t) && Healthy(g.store, start) && Timely(events, start) && Spoken(events)
    ensures AlwaysCurrent(g, events, t) <==> KeptRun(g, events, t)
  {
    hide Healthy, StepEngine, Current, FilesKeep, Parse;
    if events != [] {
      var n := |events| - 1;
      AlwaysCurrentExact(g, events[..n], start, t);
      RunHealthy(g, events[..n], start);
      PrefixCurrent(g, events, t);
      if Current(RunEngine(g, events[..n]), t) {
        StepExact(RunEngine(g, events[..n]), events[n], Clock(start, events[..n]), t);
      }
    }
  }

  lemma {:induction false} PrefixCurrent(g: Engine, events: seq<Event>, t: int)
    requires events != []
    ensures var n := |events| - 1;
            && (AlwaysCurrent(g, events, t)
                <==> AlwaysCurrent(g, events[..n], t) && Current(RunEngine(g, events), t))
            && (AlwaysCurrent(g, events[..n], t) ==> Current(RunEngine(g, events[..n]), t))
  {
    hide Current, RunEngine;
    var n := |events| - 1;
    assert events[..|events|] == events && events[..n][..n] == events[..n];
    forall i | 0 <= i <= n ensures events[..n][..i] == events[..i] {}
    if AlwaysCurrent(g, events, t) {
      forall i | 0 <= i <= n ensures Current(RunEngine(g, events[..n][..i]), t) {
        assert Current(RunEngine(g, events[..i]), t);
      }
    }
    if AlwaysCurrent(g, events[..n], t) && Current(RunEngine(g, events), t) {
      forall i | 0 <= i <= |events| ensures Current(RunEngine(g, events[..i]), t) {
        if i <= n { assert Current(RunEngine(g, events[..n][..i]), t); }
      }
    }
  }

  /** Crash safety: after every event of a smooth run, before, during and after any number of rewrites,
      failed ones included, the file at the path replays to the live data, and so would the file the
      pending rewrite is about to put there. */
  lemma {:induction false} FileAlwaysCurrent(g: Engine, events: seq<Event>, start: int, t: int)
    requires Current(g, t) && Healthy(g.store, start)
    requires Timely(events, start) && Spoken(events) && SmoothRun(g, events)
    ensures Current(RunEngine(g, events), t)
  {
    hide Healthy, StepEngine, Current, Smooth, Parse;
    if events != [] {
      var n := |events| - 1;
      FileAlwaysCurrent(g, events[..n], start, t);
      RunHealthy(g, events[..n], start);
      StepCurrent(RunEngine(g, events[..n]), events[n], Clock(start, events[..n]), t);
    }
  }

  /** A new engine on an empty file. */
  lemma {:induction false} BlankCurrent(c: nat, t: int)
    requires c >= 1
    ensures Current(Fresh(Empty(c)), t)
  {
    EmptyFresh(c, t);
  }

  // ----- One event, exactly -----

  /** What it takes for the file at the path to track the data after one event; a rename that ends puts
      the pending file there, for which see `FilesKeep`. */
  ghost predicate FileKeeps(g: Engine, e: Event, t: int) {
    match e
    case Command(now, item) =>
      var c := item.command;
      if Execute(g.store, now, c).logged && !g.writer.fd.Open? then Spared(g.store, now, c)
      else KeepsUp(g, Replay(Empty(g.store.capacity), t, g.writer.aof), now, c)
    case Beside(tick) =>
      if tick == Awaited(true) && g.writer.phase.Renaming? then Tracks(g.store, g.writer.phase.temp, t)
      else Idles(g, tick)
  }

  lemma {:induction false} OnlyDataLogged(s: State, now: int, c: Command)
    requires Execute(s, now, c).logged
    ensures c.OnData? && !c.act.Get? && Execute(s, now, c) == ExecuteData(s, now, c.key, c.act)
  {
    hide KeyStep, Purge;
  }

  /** A file that a logged line does not reach tracks the data afterwards exactly if the command was
      harmless. */
  lemma {:induction false} MissedLine(s: State, now: int, item: Item, file: seq<string>, t: int)
    requires Tracks(s, file, t) && Parse(item.line) == Parsed(item.command)
    requires Execute(s, now, item.command).logged
    ensures var c := item.command;
            && c.OnData?
            && (Tracks(Execute(s, now, c).state, file, t) <==> Harmless(s, now, c.key, c.act))
  {
    hide State.Valid, Execute, ExecuteData, Replay, FreshAt, Harmless, Parse, WellFormedAct;
    var c := item.command;
    OnlyDataLogged(s, now, c);
    ParsedWellFormed(item.line);
    ExecuteValid(s, now, c);
    var u, b := Execute(s, now, c).state, Replay(Empty(s.capacity), t, file);
    SameDataValid(s, b);
    HarmlessExact(s, now, c.key, c.act);
    if SameData(s, u) {
      SameDataSym(s, u);
      SameDataTrans(u, s, b);
    }
    if SameData(u, b) {
      SameDataSym(u, b);
      SameDataTrans(s, b, u);
    }
  }

  /** The file at the path still tracks the data after an event if and only if `FileKeeps` says so: for
      every event, in every state of store and writer. */
  lemma {:induction false} FileStepExact(g: Engine, e: Event, t: int)
    requires Tracks(g.store, g.writer.aof, t) && Conservation.NoneEmpty(g.store)
    requires e.Command? ==> Parse(e.item.line) == Parsed(e.item.command)
    ensures Tracks(StepEngine(g, e).store, StepEngine(g, e).writer.aof, t) <==> FileKeeps(g, e, t)
  {
    hide State.Valid, Execute, Replay, FreshAt, Spared, Parse, KeepsUp, Tracks, Compacted, Compact;
    hide Conservation.NoneEmpty, Idles, Ticked, ExecuteItem, PendingFile;
    match e
    case Command(now, item) =>
      FilesAfter(g, e);
      NothingAppended(g.writer.aof);
      CommandExact(g, now, item, t, g.writer.aof);
    case Beside(tick) =>
      TracksBeside(g, tick, g.writer.aof, t);
      BesideFile(g, tick);
  }

  lemma {:induction false} BesideFile(g: Engine, tick: Tick)
    ensures Ticked(g, tick).writer.aof
         == if tick == Awaited(true) && g.writer.phase.Renaming? then g.writer.phase.temp else g.writer.aof
    ensures tick.Awaited? ==> Ticked(g, tick).store == g.store
  {
    hide Step, Compacted;
  }

  // ----- Which lines the new file holds -----

  const RESUMED := Beside(Awaited(true))

  /** No await ends: commands, sweeps and snapshots only. */
  predicate Waiting(events: seq<Event>) {
    forall i :: 0 <= i < |events| ==> !Awaits(events[i])
  }

  predicate Awaits(e: Event) {
    e.Beside? && e.tick.Awaited?
  }

  /** While a rewrite is pending, the writer sees nothing but the logged lines. */
  lemma {:induction false} CommandsAppend(g: Engine, events: seq<Event>)
    requires !g.writer.phase.Idle? && Waiting(events)
    ensures RunEngine(g, events).writer == AppendAll(g.writer, Logged(g, events))
    ensures !RunEngine(g, events).writer.phase.Idle?
  {
    hide State.Valid, StepEngine, LineOf, Append;
    if events != [] {
      var n := |events| - 1;
      CommandsAppend(g, events[..n]);
      var before, line := Logged(g, events[..n]), LineOf(RunEngine(g, events[..n]).store, events[n]);
      StepWriter(RunEngine(g, events[..n]), events[n]);
      AppendSome(g.writer, before, line);
    }
  }

  /** Until its await ends, a pending rewrite changes by the logged lines alone. */
  lemma {:induction false} StepWriter(g: Engine, e: Event)
    requires !Awaits(e) && !g.writer.phase.Idle?
    ensures var line := LineOf(g.store, e);
            && |line| <= 1
            && StepEngine(g, e).writer == (if line == [] then g.writer else Append(g.writer, line[0]))
            && !StepEngine(g, e).writer.phase.Idle?
  {
    hide State.Valid, Execute;
    if e.Command? { StoreCommands(g.store, e.now, e.item.command); }
  }

  /** The events of a rewrite that succeeds: what happens while the temporary file is written, while
      the buffer is appended to it (a step taken only if the buffer holds a line), and while the file
      is being renamed. */
  function RewriteTrace(g: Engine, during: seq<Event>, aside: seq<Event>, closed: seq<Event>): seq<Event>
  {
    during + [RESUMED] + (if Logged(g, during) == [] then [] else aside + [RESUMED]) + closed + [RESUMED]
  }

  /** The rewritten file: the compacted snapshot, then exactly the lines logged before the buffer
      was detached, in order. It misses no logged line if and only if none was logged in the gap
      between detaching the buffer and reopening the file. */
  lemma {:induction false} RewrittenFile(g: Engine, commands: seq<string>,
                                         during: seq<Event>, aside: seq<Event>, closed: seq<Event>)
    requires g.writer.fd.Open? && g.writer.phase == Building(commands, [])
    requires Waiting(during) && Waiting(aside) && Waiting(closed)
    ensures var trace := RewriteTrace(g, during, aside, closed);
            var detached := RunEngine(g, during + [RESUMED]);
            var gap := if Logged(g, during) == [] then closed else aside + [RESUMED] + closed;
            && RunEngine(g, trace).writer == Writer(commands + Logged(g, during), Open, Idle)
            && Logged(g, trace) == Logged(g, during) + Logged(detached, gap)
            && (RunEngine(g, trace).writer.aof == commands + Logged(g, trace) <==> Logged(detached, gap) == [])
  {
    hide State.Valid, StepEngine, RunEngine, Logged, AppendAll;
    var lines := Logged(g, during);
    CommandsAppend(g, during);
    AppendAllFiles(g.writer, lines);
    assert [] + lines == lines;
    ResumeRun(g, during);
    var detached := RunEngine(g, during + [RESUMED]);
    var gap := if lines == [] then closed else aside + [RESUMED] + closed;
    TraceParts(g, during, aside, closed);
    if lines == [] {
      NothingAppended(commands);
      ClosedRun(detached, commands, closed);
    } else {
      CommandsAppend(detached, aside);
      AppendAllFiles(detached.writer, Logged(detached, aside));
      ResumeRun(detached, aside);
      var renaming := RunEngine(detached, aside + [RESUMED]);
      ClosedRun(renaming, commands + lines, closed);
      Associative(aside + [RESUMED], closed, [RESUMED]);
      RunEngineAppend(detached, aside + [RESUMED], closed + [RESUMED]);
    }
    RunEngineAppend(g, during + [RESUMED], gap + [RESUMED]);
    ResumeRun(detached, gap);
    var missed := Logged(detached, gap);
    Associative(commands, lines, missed);
    LongerBy(commands + lines, missed);
  }

  lemma {:induction false} TraceParts(g: Engine, during: seq<Event>, aside: seq<Event>, closed: seq<Event>)
    ensures var gap := if Logged(g, during) == [] then closed else aside + [RESUMED] + closed;
            RewriteTrace(g, during, aside, closed) == during + [RESUMED] + (gap + [RESUMED])
  {
    hide Logged;
    Associative(during + [RESUMED], [], closed + [RESUMED]);
    Associative(during + [RESUMED], aside + [RESUMED] + closed, [RESUMED]);
    Associative(during + [RESUMED], aside + [RESUMED], closed);
    NothingAppended(during + [RESUMED]);
  }

  /** Events, then a resumption: nothing is logged by the latter. */
  lemma {:induction false} ResumeRun(g: Engine, events: seq<Event>)
    ensures RunEngine(g, events + [RESUMED]).writer == Resume(RunEngine(g, events).writer)
    ensures Logged(g, events + [RESUMED]) == Logged(g, events)
  {
  }

  /** Between closing and reopening, no line is placed. */
  lemma {:induction false} ClosedRun(g: Engine, temp: seq<string>, closed: seq<Event>)
    requires g.writer.fd.Stale? && g.writer.phase == Renaming(temp) && Waiting(closed)
    ensures RunEngine(g, closed + [RESUMED]).writer == Writer(temp, Open, Idle)
  {
    hide State.Valid, StepEngine, RunEngine, Logged, AppendAll;
    CommandsAppend(g, closed);
    AppendAllFiles(g.writer, Logged(g, closed));
    ResumeRun(g, closed);
  }

  /** A command logged in the gap is lost to the new file: that file tracks the live data afterwards if
      and only if the command was a SET of the value already there or an EXPIRE of a key that already
      had a deadline. */
  lemma {:induction false} GapWrite(g: Engine, now: int, item: Item, t: int)
    requires !g.writer.phase.Idle? && !Attached(g.writer) && Tracks(g.store, PendingFile(g.writer), t)
    requires Parse(item.line) == Parsed(item.command) && !item.command.BgRewriteAof?
    requires Execute(g.store, now, item.command).logged
    ensures var after, c := StepEngine(g, Command(now, item)), item.command;
            && PendingFile(after.writer) == PendingFile(g.writer)
            && c.OnData?
            && (Tracks(after.store, PendingFile(after.writer), t) <==> Harmless(g.store, now, c.key, c.act))
  {
    hide Execute, Tracks, Harmless, Parse;
    MissedLine(g.store, now, item, PendingFile(g.writer), t);
  }

  /** Without a rewrite the file is the log: the lines it held and every line logged since, in order,
      and nothing else; so replaying the log gives what running everything, reads included, has given. */
  lemma {:induction false} LogRecordsRun(g: Engine, events: seq<Event>, start: int, t: int)
    requires g.writer.phase.Idle? && g.writer.fd.Open? && Tracks(g.store, g.writer.aof, t)
    requires Healthy(g.store, start) && Timely(events, start) && Spoken(events) && SmoothRun(g, events)
    requires Plain(events)
    ensures RunEngine(g, events).writer == g.writer.(aof := g.writer.aof + Logged(g, events))
    ensures Tracks(RunEngine(g, events).store, RunEngine(g, events).writer.aof, t)
  {
    hide Healthy, Tracks, StepEngine, Parse, Logged, RunEngine, Smooth;
    FileAlwaysCurrent(g, events, start, t);
    LoggedOnly(g, events);
  }

  /** No rewrite is asked for. */
  predicate Plain(events: seq<Event>) {
    forall i :: 0 <= i < |events| && events[i].Command? ==> !events[i].item.command.BgRewriteAof?
  }

  lemma {:induction false} LoggedOnly(g: Engine, events: seq<Event>)
    requires g.writer.phase.Idle? && g.writer.fd.Open? && Plain(events)
    ensures RunEngine(g, events).writer == g.writer.(aof := g.writer.aof + Logged(g, events))
  {
    hide StepEngine, LineOf;
    if events == [] {
      NothingAppended(g.writer.aof);
    } else {
      var n := |events| - 1;
      LoggedOnly(g, events[..n]);
      LoggedStep(RunEngine(g, events[..n]), events[n]);
      Associative(g.writer.aof, Logged(g, events[..n]), LineOf(RunEngine(g, events[..n]).store, events[n]));
    }
  }

  lemma {:induction false} LoggedStep(g: Engine, e: Event)
    requires g.writer.phase.Idle? && g.writer.fd.Open? && Plain([e])
    ensures StepEngine(g, e).writer == g.writer.(aof := g.writer.aof + LineOf(g.store, e))
  {
    hide Execute, Step, Compacted, Taken, Checked;
    assert [e][0] == e;
    if e.Command? { StoreCommands(g.store, e.now, e.item.command); }
    NothingAppended(g.writer.aof);
  }

  /** A rename that fails leaves the writer without a file for good: whatever follows, further
      rewrites included, no line is written and the file never changes again. */
  lemma {:induction false} FailedRenameSticks(g: Engine, events: seq<Event>)
    requires g.writer.fd.Stale? && !g.writer.phase.Renaming?
    ensures var w := RunEngine(g, events).writer;
            w.aof == g.writer.aof && w.fd.Stale? && !w.phase.Renaming?
  {
    hide State.Valid, Execute, Compacted, Compact;
    if events != [] {
      FailedRenameSticks(g, events[..|events| - 1]);
    }
  }
}
