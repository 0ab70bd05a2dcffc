/** Recovery after a crash, for whatever the connections send: the handler's traces, transactions and
    rewrites included, seen as runs of the engine. */
module Recovery {
  import opened Options
  import opened Sequences
  import opened StoreSpec
  import opened CommandParser
  import opened AofSteps
  import opened Execution
  import opened Transactions
  import opened LogReplay
  import opened EngineRuns
  import opened AofRewrite

  // ----- Jobs as events -----

  /** The commands of a queue that are executed: all of them, unless one throws. */
  function Ran(g: Engine, now: int, queue: seq<Item>): seq<Item> {
    if queue == [] then []
    else
      var front := queue[..|queue| - 1];
      if ExecuteQueue(g, now, front).1.None? then Ran(g, now, front) else queue
  }

  function CommandsOf(now: int, items: seq<Item>): (r: seq<Event>)
    ensures |r| == |items|
    ensures forall i :: 0 <= i < |r| ==> r[i] == Command(now, items[i])
  {
    seq(|items|, i requires 0 <= i < |items| => Command(now, items[i]))
  }

  function EventsOf(g: Engine, job: Job): seq<Event> {
    match job
    case Run(_, now, items, _) => CommandsOf(now, Ran(g, now, items))
    case Interlude(tick) => [Beside(tick)]
  }

  /** The events of a serial schedule. */
  function Executed(g: Engine, jobs: seq<Job>): seq<Event> {
    if jobs == [] then []
    else
      var n := |jobs| - 1;
      Executed(g, jobs[..n]) + EventsOf(RunJobs(g, jobs[..n]), jobs[n])
  }

  /** The events of a trace. */
  function TraceEvents(g: Engine, trace: seq<Input>): seq<Event> {
    Executed(g, Jobs(trace))
  }

  lemma {:induction false} OneEvent(g: Engine, e: Event)
    ensures RunEngine(g, [e]) == StepEngine(g, e)
  {
    hide StepEngine;
    assert [e][..0] == [];
  }

  lemma {:induction false} CommandsSnoc(now: int, front: seq<Item>, last: Item)
    ensures CommandsOf(now, front + [last]) == CommandsOf(now, front) + [Command(now, last)]
  {
  }

  lemma {:induction false} RanWhole(g: Engine, now: int, queue: seq<Item>)
    requires ExecuteQueue(g, now, queue).1.Some?
    ensures Ran(g, now, queue) == queue
  {
    hide ExecuteItem;
  }

  lemma {:induction false} QueueIsEvents(g: Engine, now: int, queue: seq<Item>)
    ensures ExecuteQueue(g, now, queue).0 == RunEngine(g, CommandsOf(now, Ran(g, now, queue)))
    decreases queue
  {
    hide ExecuteItem;
    if queue != [] {
      var front, last := queue[..|queue| - 1], queue[|queue| - 1];
      QueueIsEvents(g, now, front);
      if ExecuteQueue(g, now, front).1.Some? {
        RanWhole(g, now, front);
        hide ExecuteQueue, RunEngine, Ran, CommandsOf;
        assert front + [last] == queue;
        CommandsSnoc(now, front, last);
        RunEngineAppend(g, CommandsOf(now, front), [Command(now, last)]);
        OneEvent(RunEngine(g, CommandsOf(now, front)), Command(now, last));
        QueueLast(g, now, front, last);
        RanSnoc(g, now, front, last);
      }
    }
  }

  lemma {:induction false} QueueLast(g: Engine, now: int, front: seq<Item>, last: Item)
    requires ExecuteQueue(g, now, front).1.Some?
    ensures ExecuteQueue(g, now, front + [last]).0 == ExecuteItem(ExecuteQueue(g, now, front).0, now, last).0
  {
    hide ExecuteItem;
    FrontOfAppend(front, [last]);
    NothingAppended(front);
  }

  lemma {:induction false} RanSnoc(g: Engine, now: int, front: seq<Item>, last: Item)
    requires ExecuteQueue(g, now, front).1.Some?
    ensures Ran(g, now, front + [last]) == front + [last]
  {
    hide ExecuteQueue;
    FrontOfAppend(front, [last]);
    NothingAppended(front);
  }

  lemma {:induction false} JobIsEvents(g: Engine, job: Job)
    ensures RunJob(g, job) == RunEngine(g, EventsOf(g, job))
  {
    hide ExecuteQueue, RunEngine, Ran, Ticked, ExecuteItem;
    match job
    case Run(_, now, items, _) => QueueIsEvents(g, now, items);
    case Interlude(tick) => OneEvent(g, Beside(tick));
  }

  lemma {:induction false} JobsAreEvents(g: Engine, jobs: seq<Job>)
    ensures RunJobs(g, jobs) == RunEngine(g, Executed(g, jobs))
  {
    hide RunJob, RunEngine, EventsOf;
    if jobs != [] {
      var n := |jobs| - 1;
      JobsAreEvents(g, jobs[..n]);
      JobIsEvents(RunJobs(g, jobs[..n]), jobs[n]);
      RunEngineAppend(g, Executed(g, jobs[..n]), EventsOf(RunJobs(g, jobs[..n]), jobs[n]));
    } else {
      NoEvents(g);
    }
  }

  lemma {:induction false} NoEvents(g: Engine)
    ensures RunEngine(g, []) == g
  {
  }

  /** The engine after any trace is the engine after its events, one at a time. */
  lemma {:induction false} TraceIsRun(g: Engine, trace: seq<Input>)
    ensures HandleAll(Start(g), trace).engine == RunEngine(g, TraceEvents(g, trace))
  {
    hide RunEngine, RunJobs, HandleAll;
    Serializable(g, trace);
    JobsAreEvents(g, Jobs(trace));
  }

  // ----- The clock of a trace -----

  function InputTime(i: Input, last: int): int {
    match i
    case Line(_, now, _) => now
    case Background(tick) => TickTime(tick, last)
  }

  function TraceClock(start: int, trace: seq<Input>): int {
    if trace == [] then start
    else InputTime(trace[|trace| - 1], TraceClock(start, trace[..|trace| - 1]))
  }

  /** The clock does not run back. */
  predicate TimelyTrace(trace: seq<Input>, start: int) {
    trace != [] ==>
      var n := |trace| - 1;
      var last := TraceClock(start, trace[..n]);
      TimelyTrace(trace[..n], start) && last <= InputTime(trace[n], last)
  }

  /** Events that follow at one time, not before the last one. */
  lemma {:induction false} TimelyAppend(a: seq<Event>, b: seq<Event>, start: int, now: int)
    requires Timely(a, start) && Clock(start, a) <= now
    requires forall i, last :: 0 <= i < |b| && last <= now ==> last <= TimeOf(b[i], last) <= now
    ensures Timely(a + b, start) && Clock(start, a + b) <= now
    decreases b
  {
    hide TimeOf;
    if b == [] {
      NothingAppended(a);
    } else {
      var n := |b| - 1;
      TimelyAppend(a, b[..n], start, now);
      FrontOfAppend(a, b);
    }
  }

  lemma {:induction false} EventsTimely(g: Engine, trace: seq<Input>, start: int)
    requires TimelyTrace(trace, start)
    ensures Timely(TraceEvents(g, trace), start)
    ensures Clock(start, TraceEvents(g, trace)) <= TraceClock(start, trace)
  {
    if trace != [] {
      hide Queue, LinesOf, RunJobs, Met, Parse, JobOf, Ran;
      var before, last := trace[..|trace| - 1], trace[|trace| - 1];
      EventsTimely(g, before, start);
      var jobs := JobsOf(Met(before, last), last);
      if jobs == [] {
        NothingAppended(Jobs(before));
        assert Jobs(trace) == Jobs(before);
      } else {
        ExecutedSnoc(g, Jobs(before), jobs[0]);
        assert jobs == [jobs[0]];
        JobFollows(g, TraceEvents(g, before), RunJobs(g, Jobs(before)), jobs[0], start,
                   InputTime(last, TraceClock(start, before)), TraceClock(start, before));
      }
    }
  }

  lemma {:induction false} ExecutedSnoc(g: Engine, jobs: seq<Job>, job: Job)
    ensures Executed(g, jobs + [job]) == Executed(g, jobs) + EventsOf(RunJobs(g, jobs), job)
  {
    hide EventsOf, RunJobs;
    FrontOfAppend(jobs, [job]);
    NothingAppended(jobs);
  }

  lemma {:induction false} JobFollows(g: Engine, a: seq<Event>, h: Engine, job: Job, start: int, now: int, last: int)
    requires Timely(a, start) && Clock(start, a) <= last <= now
    requires match job case Run(_, at, _, _) => at == now case Interlude(tick) => now == TickTime(tick, last)
    ensures Timely(a + EventsOf(h, job), start) && Clock(start, a + EventsOf(h, job)) <= now
  {
    hide Ran, ExecuteQueue;
    match job
    case Run(_, at, items, _) => TimelyAppend(a, EventsOf(h, job), start, now);
    case Interlude(tick) =>
      FrontOfAppend(a, [Beside(tick)]);
      NothingAppended(a);
  }

  // ----- Commands are what their lines parse to -----

  lemma {:induction false} JobSpoken(g: Engine, job: Job)
    requires JobQueueable(job)
    ensures Spoken(EventsOf(g, job))
  {
    hide Parse;
    if job.Run? {
      RanPrefix(g, job.now, job.items);
    }
  }

  lemma {:induction false} RanPrefix(g: Engine, now: int, queue: seq<Item>)
    ensures Ran(g, now, queue) <= queue
    decreases queue
  {
    hide ExecuteQueue;
    if queue != [] {
      RanPrefix(g, now, queue[..|queue| - 1]);
    }
  }

  lemma {:induction false} JobsSpoken(g: Engine, jobs: seq<Job>)
    requires forall i :: 0 <= i < |jobs| ==> JobQueueable(jobs[i])
    ensures Spoken(Executed(g, jobs))
  {
    hide JobQueueable, EventsOf, RunJobs, Parse;
    if jobs != [] {
      var n := |jobs| - 1;
      JobsSpoken(g, jobs[..n]);
      JobSpoken(RunJobs(g, jobs[..n]), jobs[n]);
    }
  }

  lemma {:induction false} EventsSpoken(g: Engine, trace: seq<Input>)
    ensures Spoken(TraceEvents(g, trace))
  {
    hide JobQueueable, Executed, Spoken;
    JobsQueueable(trace);
    JobsSpoken(g, Jobs(trace));
  }

  /** What holds of every line sent holds of the line of every command executed. */
  ghost predicate EventsHave(has: string -> bool, events: seq<Event>) {
    forall i :: 0 <= i < |events| && events[i].Command? ==> has(events[i].item.line)
  }

  lemma {:induction false} JobEventsHave(has: string -> bool, g: Engine, job: Job)
    requires JobHas(has, job)
    ensures EventsHave(has, EventsOf(g, job))
  {
    hide Parse;
    if job.Run? {
      RanPrefix(g, job.now, job.items);
    }
  }

  lemma {:induction false} ExecutedHave(has: string -> bool, g: Engine, jobs: seq<Job>)
    requires forall i :: 0 <= i < |jobs| ==> JobHas(has, jobs[i])
    ensures EventsHave(has, Executed(g, jobs))
  {
    hide JobHas, EventsOf, RunJobs;
    if jobs != [] {
      var n := |jobs| - 1;
      ExecutedHave(has, g, jobs[..n]);
      JobEventsHave(has, RunJobs(g, jobs[..n]), jobs[n]);
    }
  }

  lemma {:induction false} TraceEventsHave(has: string -> bool, g: Engine, trace: seq<Input>)
    requires TextsHave(has, trace)
    ensures EventsHave(has, TraceEvents(g, trace))
  {
    hide JobHas, Executed, EventsHave;
    JobsHave(has, trace);
    ExecutedHave(has, g, Jobs(trace));
  }

  // ----- Every trace -----

  /** Whatever the connections send and whatever happens beside it, with a clock that does not run
      back: everything held is a token, every TTL within the parser's bound, no list and no hash
      empty, and the three structures of the store in lockstep. */
  lemma {:induction false} TraceHealthy(g: Engine, trace: seq<Input>, start: int)
    requires Healthy(g.store, start) && TimelyTrace(trace, start)
    ensures var s := HandleAll(Start(g), trace).engine.store;
            Healthy(s, TraceClock(start, trace)) && s.capacity == g.store.capacity
  {
    hide Healthy, RunEngine, HandleAll, TraceEvents, Spoken, Timely;
    TraceIsRun(g, trace);
    EventsTimely(g, trace, start);
    EventsSpoken(g, trace);
    RunHealthy(g, TraceEvents(g, trace), start);
    HealthyLater(RunEngine(g, TraceEvents(g, trace)).store, Clock(start, TraceEvents(g, trace)),
                 TraceClock(start, trace));
  }

  lemma {:induction false} SmoothPrefix(g: Engine, a: seq<Event>, b: seq<Event>)
    requires SmoothRun(g, a + b)
    ensures SmoothRun(g, a)
    decreases b
  {
    hide Smooth, RunEngine;
    if b == [] {
      NothingAppended(a);
    } else {
      FrontOfAppend(a, b);
      SmoothPrefix(g, a, b[..|b| - 1]);
    }
  }

  lemma {:induction false} EventsPrefix(g: Engine, trace: seq<Input>) returns (more: seq<Event>)
    requires trace != []
    ensures TraceEvents(g, trace) == TraceEvents(g, trace[..|trace| - 1]) + more
  {
    hide Queue, LinesOf, RunJobs, JobsOf, Met, EventsOf;
    var before, last := trace[..|trace| - 1], trace[|trace| - 1];
    var jobs := JobsOf(Met(before, last), last);
    AtMostOne(Met(before, last), last);
    if jobs == [] {
      NothingAppended(Jobs(before));
      NothingAppended(TraceEvents(g, before));
      more := [];
    } else {
      assert jobs == [jobs[0]];
      ExecutedSnoc(g, Jobs(before), jobs[0]);
      more := EventsOf(RunJobs(g, Jobs(before)), jobs[0]);
    }
  }

  lemma {:induction false} AtMostOne(queue: Option<seq<Item>>, i: Input)
    ensures |JobsOf(queue, i)| <= 1
  {
    hide JobOf;
  }

  /** Recovery after a crash at any moment: whatever lines the connections send, transactions, reads and
      BGREWRITEAOF included, and whatever sweeps, snapshots and steps of rewrites happen in between,
      after every one of them replaying the file at the path into an empty store of the same capacity
      gives the live data back, provided the executed events ran smoothly. */
  lemma {:induction false} CrashRecovery(g: Engine, trace: seq<Input>, start: int, t: int)
    requires Current(g, t) && Healthy(g.store, start)
    requires TimelyTrace(trace, start) && SmoothRun(g, TraceEvents(g, trace))
    ensures forall n :: 0 <= n <= |trace| ==>
              var u := HandleAll(Start(g), trace[..n]).engine;
              SameData(u.store, Replay(Empty(g.store.capacity), t, u.writer.aof))
  {
    hide Healthy, RunEngine, HandleAll, TraceEvents, Spoken, Timely, Current, SameData, Replay, SmoothRun;
    TraceIsRun(g, trace);
    EventsTimely(g, trace, start);
    EventsSpoken(g, trace);
    FileAlwaysCurrent(g, TraceEvents(g, trace), start, t);
    RunHealthy(g, TraceEvents(g, trace), start);
    CurrentTracks(HandleAll(Start(g), trace).engine, t);
    assert trace[..|trace|] == trace;
    if trace != [] {
      var before := trace[..|trace| - 1];
      var more := EventsPrefix(g, trace);
      SmoothPrefix(g, TraceEvents(g, before), more);
      CrashRecovery(g, before, start, t);
      forall n | 0 <= n <= |trace|
        ensures var u := HandleAll(Start(g), trace[..n]).engine;
                SameData(u.store, Replay(Empty(g.store.capacity), t, u.writer.aof))
      {
        if n < |trace| {
          assert trace[..n] == before[..n];
        }
      }
    }
  }

  lemma {:induction false} CurrentTracks(g: Engine, t: int)
    requires Current(g, t)
    ensures SameData(g.store, Replay(Empty(g.store.capacity), t, g.writer.aof))
  {
    hide SameData, Replay, PendingFile, FreshAt;
  }

  /** In particular from an empty store and an empty file. */
  lemma {:induction false} CrashRecoveryFromBlank(c: nat, trace: seq<Input>, start: int, t: int)
    requires c >= 1 && TimelyTrace(trace, start)
    requires SmoothRun(Fresh(Empty(c)), TraceEvents(Fresh(Empty(c)), trace))
    ensures var u := HandleAll(Start(Fresh(Empty(c))), trace).engine;
            SameData(u.store, Replay(Empty(c), t, u.writer.aof))
  {
    hide HandleAll, TraceEvents, SmoothRun, SameData, Replay, Healthy, Current;
    var g := Fresh(Empty(c));
    BlankHealthy(c, start);
    BlankCurrent(c, t);
    CrashRecovery(g, trace, start, t);
    assert trace[..|trace|] == trace;
  }
}
