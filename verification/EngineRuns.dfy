/** Runs of the engine, store and writer together: the events are the commands, one at a time, and
    what happens beside them. What every run keeps, whatever is logged, expires or is evicted. */
module EngineRuns {
  import opened Sequences
  import opened Text
  import opened StoreSpec
  import opened StoreFacts
  import opened StoreRelations
  import opened CommandParser
  import opened Printing
  import opened Execution
  import opened LogReplay
  import opened Compaction
  import opened Rebuild
  import Conservation
  import Expiry

  datatype Event = Command(now: int, item: Item) | Beside(tick: Tick)

  function StepEngine(g: Engine, e: Event): Engine {
    match e
    case Command(now, item) => ExecuteItem(g, now, item).0
    case Beside(tick) => Ticked(g, tick)
  }

  function RunEngine(g: Engine, events: seq<Event>): Engine {
    if events == [] then g else StepEngine(RunEngine(g, events[..|events| - 1]), events[|events| - 1])
  }

  /** The time an event reads off the clock; the end of an await and a lost connection read none. */
  function TimeOf(e: Event, last: int): int {
    match e
    case Command(now, _) => now
    case Beside(tick) => TickTime(tick, last)
  }

  function TickTime(tick: Tick, last: int): int {
    match tick
    case Swept(now, _) => now
    case Checkpoint(now) => now
    case _ => last
  }

  /** The time of the last event that read the clock. */
  function Clock(start: int, events: seq<Event>): int {
    if events == [] then start
    else TimeOf(events[|events| - 1], Clock(start, events[..|events| - 1]))
  }

  /** The clock does not run back. */
  predicate Timely(events: seq<Event>, start: int) {
    events != [] ==>
      var n := |events| - 1;
      var last := Clock(start, events[..n]);
      Timely(events[..n], start) && last <= TimeOf(events[n], last)
  }

  /** Commands are what their lines parse to. */
  predicate Spoken(events: seq<Event>) {
    forall i :: 0 <= i < |events| && events[i].Command? ==>
      Parse(events[i].item.line) == Parsed(events[i].item.command)
  }

  /** The store is valid, holds tokens and no empty container, and no TTL beyond the parser's bound. */
  ghost predicate Healthy(s: State, now: int) {
    s.Valid() && Storable(s, now) && Conservation.NoneEmpty(s)
  }

  lemma {:induction false} CompactedHealthy(s: State, now: int)
    requires Healthy(s, now)
    ensures Healthy(Compacted(s, now), now) && Compacted(s, now).capacity == s.capacity
  {
    hide State.Valid, Storable, Conservation.NoneEmpty, Purge;
    CompactedValid(s, now);
    CompactedPrintable(s, now);
    SamePrintable(Purge(s, now, s.values.keys), Compacted(s, now), now);
  }

  lemma {:induction false} SamePrintable(p: State, u: State, now: int)
    requires Printable(p, now) && u.values == p.values && u.ttl == p.ttl
    ensures Storable(u, now) && Conservation.NoneEmpty(u)
  {
    hide State.Valid, IsToken, TokenValue, Conservation.Nonempty;
  }

  lemma {:induction false} ExecuteHealthy(s: State, now: int, item: Item)
    requires Healthy(s, now) && Parse(item.line) == Parsed(item.command)
    ensures var u := Execute(s, now, item.command).state;
            Healthy(u, now) && u.capacity == s.capacity
  {
    hide State.Valid, Parse, Execute, Storable, Conservation.NoneEmpty, WellFormedCommand;
    ExecuteValid(s, now, item.command);
    ExecuteStorable(s, now, item.line);
    ParsedWellFormed(item.line);
    ExecuteNonempty(s, now, item.command);
  }

  lemma {:induction false} HealthyLater(s: State, now: int, later: int)
    requires Healthy(s, now) && now <= later
    ensures Healthy(s, later)
  {
    hide State.Valid, Storable, Conservation.NoneEmpty;
    StorableLater(s, now, later);
  }

  lemma {:induction false} SweepHealthy(s: State, now: int, limit: int)
    requires Healthy(s, now)
    ensures Healthy(Step(s, now, Sweep(limit)).0, now) && Step(s, now, Sweep(limit)).0.capacity == s.capacity
  {
    hide State.Valid, Storable, Conservation.NoneEmpty, Step, Keep;
    StepValid(s, now, Sweep(limit));
    Conservation.StepNonempty(s, now, Sweep(limit));
    SweepRestricts(s, now, limit);
    RestrictStorable(Step(s, now, Sweep(limit)).0, s, now);
  }

  lemma {:induction false} SweepRestricts(s: State, now: int, limit: int)
    requires s.Valid()
    ensures Restricts(Step(s, now, Sweep(limit)).0, s)
  {
    hide State.Valid, Keep, Reclaim;
    CollectValid(s, now, limit);
    CollectedDeadlines(s, now, limit);
    var (due, t) := Expiry.Collect(s.ttl, now, limit);
    var moved := s.(ttl := t);
    ReclaimRestricts(moved, due);
    RestrictsRefl(s);
    MovedRestricts(moved, s);
    RestrictsTrans(Reclaim(moved, due), moved, s);
  }

  lemma {:induction false} MovedRestricts(u: State, s: State)
    requires Restricts(s, s) && u.values == s.values && u.recency == s.recency && u.capacity == s.capacity
    requires u.ttl.deadlines == s.ttl.deadlines
    ensures Restricts(u, s)
  {
  }

  lemma {:induction false} TickHealthy(g: Engine, tick: Tick, last: int)
    requires Healthy(g.store, last) && last <= TickTime(tick, last)
    ensures var u := Ticked(g, tick).store;
            Healthy(u, TickTime(tick, last)) && u.capacity == g.store.capacity
  {
    hide Healthy, Step, Compacted;
    HealthyLater(g.store, last, TickTime(tick, last));
    match tick
    case Swept(now, limit) => SweepHealthy(g.store, now, limit);
    case Checkpoint(now) => CompactedHealthy(g.store, now);
    case _ =>
  }

  lemma {:induction false} StepHealthy(g: Engine, e: Event, last: int)
    requires Healthy(g.store, last) && last <= TimeOf(e, last)
    requires e.Command? ==> Parse(e.item.line) == Parsed(e.item.command)
    ensures var u := StepEngine(g, e).store;
            Healthy(u, TimeOf(e, last)) && u.capacity == g.store.capacity
  {
    hide Healthy, Parse, Execute, Compacted, Compact, Ticked;
    match e
    case Command(now, item) =>
      HealthyLater(g.store, last, now);
      CompactedHealthy(g.store, now);
      ExecuteHealthy(g.store, now, item);
    case Beside(tick) => TickHealthy(g, tick, last);
  }

  /** In every reachable state of the engine, rewrites included, everything held is a token, every TTL
      is within the parser's bound, no container is empty, and the lockstep invariant holds. */
  lemma {:induction false} RunHealthy(g: Engine, events: seq<Event>, start: int)
    requires Healthy(g.store, start) && Timely(events, start) && Spoken(events)
    ensures Healthy(RunEngine(g, events).store, Clock(start, events))
    ensures RunEngine(g, events).store.capacity == g.store.capacity
  {
    hide Healthy, Parse, StepEngine;
    if events != [] {
      var n := |events| - 1;
      RunHealthy(g, events[..n], start);
      StepHealthy(RunEngine(g, events[..n]), events[n], Clock(start, events[..n]));
    }
  }

  lemma {:induction false} BlankHealthy(c: nat, now: int)
    requires c >= 1
    ensures Healthy(Empty(c), now)
  {
  }

  // ----- The logged lines of a run -----

  /** The line an event logs, if any. */
  function LineOf(s: State, e: Event): seq<string> {
    if e.Command? && Execute(s, e.now, e.item.command).logged then [Trim(e.item.line)] else []
  }

  /** All lines logged during a run, whether or not the writer could place them. */
  function Logged(g: Engine, events: seq<Event>): seq<string> {
    if events == [] then []
    else
      var n := |events| - 1;
      Logged(g, events[..n]) + LineOf(RunEngine(g, events[..n]).store, events[n])
  }

  lemma {:induction false} RunEngineAppend(g: Engine, a: seq<Event>, b: seq<Event>)
    ensures RunEngine(g, a + b) == RunEngine(RunEngine(g, a), b)
    ensures Logged(g, a + b) == Logged(g, a) + Logged(RunEngine(g, a), b)
    decreases b
  {
    hide StepEngine, LineOf;
    if b == [] {
      NothingAppended(a);
      NothingAppended(Logged(g, a));
    } else {
      var n := |b| - 1;
      RunEngineAppend(g, a, b[..n]);
      FrontOfAppend(a, b);
      Associative(Logged(g, a), Logged(RunEngine(g, a), b[..n]),
                            LineOf(RunEngine(g, a + b[..n]).store, b[n]));
    }
  }
}
