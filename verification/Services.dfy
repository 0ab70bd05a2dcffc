/** Subscriptions and snapshots of the running server: what its registry and its dump file stand for
    after any trace. */
module Services {
  import opened Options
  import opened Sequences
  import opened StoreSpec
  import opened CommandParser
  import opened Printing
  import opened Dumping
  import opened Execution
  import opened Transactions
  import opened EngineRuns
  import opened Recovery
  import Persistence
  import PubSub
  import Replies

  // ----- Subscriptions -----

  /** What an event says about who is subscribed to what. */
  function Says(e: Event): seq<PubSub.Event> {
    match e
    case Command(_, item) =>
      (match item.command
       case Subscribe(chs) => [PubSub.Subscribes(item.conn, chs)]
       case Unsubscribe(chs) => [PubSub.Unsubscribes(item.conn, chs)]
       case _ => [])
    case Beside(tick) => if tick.Lost? then [PubSub.Leaves(tick.conn)] else []
  }

  function Said(events: seq<Event>): seq<PubSub.Event> {
    if events == [] then [] else Said(events[..|events| - 1]) + Says(events[|events| - 1])
  }

  lemma {:induction false} StepRegistry(g: Engine, e: Event)
    ensures StepEngine(g, e).registry
         == if Says(e) == [] then g.registry else PubSub.StepRegistry(g.registry, Says(e)[0])
    ensures |Says(e)| <= 1
  {
    hide Execute, Taken, Checked, PubSub.Subscribe, PubSub.Unsubscribe, PubSub.Disconnect, PubSub.Deliveries;
  }

  lemma {:induction false} RunRegistrySnoc(r: PubSub.Registry, said: seq<PubSub.Event>, more: seq<PubSub.Event>)
    requires |more| <= 1
    ensures PubSub.RunRegistry(r, said + more)
         == if more == [] then PubSub.RunRegistry(r, said)
            else PubSub.StepRegistry(PubSub.RunRegistry(r, said), more[0])
  {
    hide PubSub.StepRegistry;
    NothingAppended(said);
    if more != [] { FrontOfAppend(said, more); }
  }

  /** The registry of the engine is the registry of what its events have said. */
  lemma {:induction false} RegistryIsRun(g: Engine, events: seq<Event>)
    ensures RunEngine(g, events).registry == PubSub.RunRegistry(g.registry, Said(events))
  {
    hide StepEngine, PubSub.StepRegistry, Says;
    if events != [] {
      var n := |events| - 1;
      RegistryIsRun(g, events[..n]);
      StepRegistry(RunEngine(g, events[..n]), events[n]);
      RunRegistrySnoc(g.registry, Said(events[..n]), Says(events[n]));
    }
  }

  lemma {:induction false} SaidChannels(events: seq<Event>)
    requires Spoken(events)
    ensures forall i :: 0 <= i < |Said(events)| && Said(events)[i].Subscribes? ==> Said(events)[i].channels != []
  {
    if events != [] {
      hide Parse;
      SaidChannels(events[..|events| - 1]);
      var e := events[|events| - 1];
      if e.Command? { ParsedWellFormed(e.item.line); }
    }
  }

  /** After any trace, transactions and lost connections included, both indexes hold exactly the pairs
      whose last word is a subscription, and a connection is restricted exactly if it holds one. */
  lemma {:induction false} TraceTwoWay(g: Engine, trace: seq<Input>)
    requires g.registry == PubSub.NOBODY
    ensures var r, said := HandleAll(Start(g), trace).engine.registry, Said(TraceEvents(g, trace));
            && r.Tidy()
            && (forall c, ch :: PubSub.Wants(said, c, ch) <==> r.Holds(c, ch))
            && (forall c, ch :: PubSub.Wants(said, c, ch) <==> r.Lists(c, ch))
            && (forall c :: PubSub.IsSubscribed(r, c) <==> PubSub.WantsSome(said, c))
  {
    hide HandleAll, RunEngine, TraceEvents, Said, Spoken, PubSub.RunRegistry, PubSub.Wants;
    hide PubSub.Registry.Tidy, PubSub.Registry.Holds, PubSub.Registry.Lists, PubSub.IsSubscribed;
    var events := TraceEvents(g, trace);
    TraceIsRun(g, trace);
    EventsSpoken(g, trace);
    SaidChannels(events);
    RegistryIsRun(g, events);
    PubSub.RunTwoWay(Said(events));
    var r, said := HandleAll(Start(g), trace).engine.registry, Said(events);
    forall c ensures PubSub.IsSubscribed(r, c) <==> PubSub.WantsSome(said, c) {
      PubSub.SubscribedHolds(r, c);
      if ch :| r.Holds(c, ch) { assert PubSub.Wants(said, c, ch); }
      if ch :| PubSub.Wants(said, c, ch) { assert r.Holds(c, ch); }
    }
  }

  /** A PUBLISH line after any trace writes the message once to every connection whose last word on the
      channel is a subscription and to nobody else, and answers their number. */
  lemma {:induction false} PublishReaches(g: Engine, trace: seq<Input>, now: int, item: Item,
                                          subscribers: set<string>)
    requires g.registry == PubSub.NOBODY && item.command.Publish?
    requires forall c :: c in subscribers <==>
               PubSub.Wants(Said(TraceEvents(g, trace)), c, item.command.channel)
    ensures var u := HandleAll(Start(g), trace).engine;
            var (v, answer) := ExecuteItem(u, now, item);
            var w := PubSub.Deliveries(u.registry, item.command.channel, item.command.message);
            && v == u.(pushed := u.pushed + w)
            && answer == Reply(Replies.Integer(|subscribers|))
            && (forall c :: c in subscribers <==> exists i :: 0 <= i < |w| && w[i].0 == c)
            && (forall i, j :: 0 <= i < j < |w| ==> w[i].0 != w[j].0)
            && (forall i :: 0 <= i < |w| ==>
                  w[i].1 == Replies.ArrayText(["message", item.command.channel, item.command.message]))
  {
    hide HandleAll, TraceEvents, Said, PubSub.Wants, PubSub.Registry.Holds, PubSub.Registry.Lists, PubSub.Deliveries;
    TraceTwoWay(g, trace);
    var r := HandleAll(Start(g), trace).engine.registry;
    TidyValid(r);
    PubSub.DeliveredOnce(r, item.command.channel, item.command.message, subscribers);
  }

  lemma {:induction false} TidyValid(r: PubSub.Registry)
    requires r.Tidy()
    ensures r.Valid()
  {
  }

  /** What the commands that are not about data are answered, and what they leave alone. */
  lemma {:induction false} ServiceAnswers(g: Engine, now: int, conn: string, line: string, chs: seq<string>)
    ensures ExecuteItem(g, now, Item(conn, line, BgSave)).1 == Reply("+OK\r\n")
    ensures ExecuteItem(g, now, Item(conn, line, BgRewriteAof)).1 == Reply("+OK\r\n")
    ensures forall password :: ExecuteItem(g, now, Item(conn, line, Auth(password))) == (g, Reply("+OK\r\n"))
    ensures ExecuteItem(g, now, Item(conn, line, Subscribe(chs)))
         == (g.(registry := PubSub.Subscribe(g.registry, conn, chs)),
             Reply(Replies.Concat(PubSub.SubscribeAnswer(g.registry, conn, chs))))
    ensures ExecuteItem(g, now, Item(conn, line, Unsubscribe(chs)))
         == (g.(registry := PubSub.Unsubscribe(g.registry, conn, chs)),
             Reply(Replies.Concat(PubSub.UnsubscribeAnswer(g.registry, conn, chs))))
  {
    hide Taken, Compacted, Compact, PubSub.Subscribe, PubSub.Unsubscribe, PubSub.SubscribeAnswer;
    hide PubSub.UnsubscribeAnswer, Replies.Concat;
    OksSpelled();
    hide Replies.Ok;
  }

  /** What a handler with a store alone makes of them: the store stays as it is, and nothing is logged. */
  lemma {:induction false} BareAnswers(s: State, now: int, chs: seq<string>, channel: string, message: string)
    ensures Execute(s, now, BgSave) == Effected(s, "-ERR persistence not configured\r\n", false)
    ensures Execute(s, now, BgRewriteAof) == Effected(s, "-ERR AOF not configured\r\n", false)
    ensures var missing := Effected(s, "-ERR Pub/Sub not configured\r\n", false);
            && Execute(s, now, Subscribe(chs)) == missing
            && Execute(s, now, Unsubscribe(chs)) == missing
            && Execute(s, now, Publish(channel, message)) == missing
    ensures forall password :: Execute(s, now, Auth(password)) == Effected(s, "+OK\r\n", false)
  {
    NoPersistence();
    NoAof();
    NoPubSub();
    OksSpelled();
    hide Replies.Error, Replies.Ok;
  }

  lemma {:induction false} NoPersistence()
    ensures Replies.Error("persistence not configured") == "-ERR persistence not configured\r\n"
  {
  }

  lemma {:induction false} NoAof()
    ensures Replies.Error("AOF not configured") == "-ERR AOF not configured\r\n"
  {
  }

  lemma {:induction false} NoPubSub()
    ensures Replies.Error("Pub/Sub not configured") == "-ERR Pub/Sub not configured\r\n"
  {
  }

  // ----- Snapshots -----

  function KeeperOf(g: Engine): Persistence.Keeper {
    Persistence.Keeper(g.store, g.snapshot)
  }

  /** The event creates no key without counting it as a mutation. */
  predicate Counted(g: Engine, e: Event) {
    e.Command? && e.item.command.OnData? ==>
      !Persistence.Uncounted(g.store, e.now, OnKey(e.item.command.key, e.item.command.act))
  }

  predicate CountedRun(g: Engine, events: seq<Event>) {
    events != [] ==>
      var n := |events| - 1;
      CountedRun(g, events[..n]) && Counted(RunEngine(g, events[..n]), events[n])
  }

  /** A command of a handler with a store alone is one or two operations. */
  lemma {:induction false} ExecuteSynced(k: Persistence.Keeper, now: int, c: Command)
    requires Persistence.Synced(k)
    requires c.OnData? ==> !Persistence.Uncounted(k.store, now, OnKey(c.key, c.act))
    ensures Persistence.Synced(k.(store := Execute(k.store, now, c).state))
  {
    hide Persistence.Synced, Step, State.Valid;
    match c
    case OnData(key, act) =>
      Persistence.OpSynced(k, now, OnKey(key, act));
      if act.Get? {
        var looked := OnKey(key, TypeOf);
        Persistence.OpSynced(k, now, looked);
        Persistence.OpSynced(k.(store := Step(k.store, now, looked).0), now, OnKey(key, Act.Get));
      }
    case ListKeys(pattern) => Persistence.OpSynced(k, now, Keys(pattern));
    case _ =>
  }

  lemma {:induction false} StepSynced(g: Engine, e: Event)
    requires Persistence.Synced(KeeperOf(g)) && Counted(g, e)
    ensures Persistence.Synced(KeeperOf(StepEngine(g, e)))
  {
    hide Persistence.Synced, Execute, Step, Taken, Compacted, Compact, Persistence.Uncounted;
    hide PubSub.Subscribe, PubSub.Unsubscribe, PubSub.Disconnect, PubSub.Deliveries, Finished, Abandoned;
    var k := KeeperOf(g);
    match e
    case Command(now, item) =>
      ExecuteSynced(k, now, item.command);
      Persistence.BeginSynced(k, now);
      Persistence.CompactedSynced(k, now);
    case Beside(tick) =>
      match tick
      case Swept(now, limit) => SweepCounted(g.store, now, limit); Persistence.OpSynced(k, now, Sweep(limit));
      case Checkpoint(now) => Persistence.BeginSynced(k, now);
      case Written(ok) =>
        Persistence.EndSynced(k, Persistence.FinishSave);
        Persistence.EndSynced(k, Persistence.FailSave);
      case _ =>
  }

  lemma {:induction false} SweepCounted(s: State, now: int, limit: int)
    ensures !Persistence.Uncounted(s, now, Sweep(limit))
  {
  }

  lemma {:induction false} RunSynced(g: Engine, events: seq<Event>)
    requires Persistence.Synced(KeeperOf(g)) && CountedRun(g, events)
    ensures Persistence.Synced(KeeperOf(RunEngine(g, events)))
  {
    hide Persistence.Synced, StepEngine, Counted, KeeperOf;
    if events != [] {
      var n := |events| - 1;
      RunSynced(g, events[..n]);
      StepSynced(RunEngine(g, events[..n]), events[n]);
    }
  }

  /** The dump file of the running server: after any trace, transactions, rewrites and saves that
      complete or fail included, in which no list is created uncounted, whenever the mutation count is
      the one last saved, the file describes the live store. */
  lemma {:induction false} DumpFresh(g: Engine, trace: seq<Input>)
    requires Persistence.Synced(KeeperOf(g)) && CountedRun(g, TraceEvents(g, trace))
    ensures var u := HandleAll(Start(g), trace).engine;
            u.snapshot.disk.Some? && u.store.dirty == u.snapshot.lastSaved ==>
              Persistence.Describes(u.snapshot.disk.value, u.store)
  {
    hide HandleAll, TraceEvents, RunEngine, CountedRun, Persistence.Describes, State.Valid;
    TraceIsRun(g, trace);
    RunSynced(g, TraceEvents(g, trace));
  }

  /** A new server has nothing to save: the timer leaves it alone until the count moves. */
  lemma {:induction false} NothingToSave(capacity: nat, now: int)
    requires capacity > 0
    ensures StepEngine(Fresh(Empty(capacity)), Beside(Checkpoint(now))) == Fresh(Empty(capacity))
    ensures Persistence.Synced(KeeperOf(Fresh(Empty(capacity))))
  {
  }

  // ----- A save, from its beginning to its end -----

  /** The event begins a save, if none is pending: BGSAVE, or the timer when the count has moved. */
  predicate BeginsSave(g: Engine, e: Event, now: int) {
    match e
    case Command(at, item) => at == now && item.command.BgSave?
    case Beside(tick) => tick == Checkpoint(now) && g.store.dirty != g.snapshot.lastSaved
  }

  /** No save ends in between. */
  predicate NoneEnds(events: seq<Event>) {
    forall i :: 0 <= i < |events| ==> !(events[i].Beside? && events[i].tick.Written?)
  }

  /** While a save is pending, nothing but its end changes what it will leave. */
  lemma {:induction false} PendingStays(g: Engine, events: seq<Event>)
    requires g.snapshot.saving.Some? && NoneEnds(events)
    ensures RunEngine(g, events).snapshot == g.snapshot
  {
    hide Execute, Step, Compacted, Compact, DumpOf, PubSub.Subscribe, PubSub.Unsubscribe, PubSub.Disconnect;
    hide PubSub.Deliveries;
    if events != [] {
      PendingStays(g, events[..|events| - 1]);
    }
  }

  /** A save that begins takes the count as it is, and then the dump of what listing and reading every key
      leaves. */
  lemma {:induction false} SaveBegins(g: Engine, e: Event, now: int)
    requires g.snapshot.saving == None && BeginsSave(g, e, now)
    ensures var u := StepEngine(g, e);
            && u.snapshot.saving == Some((DumpOf(Compacted(g.store, now), now), g.store.dirty))
            && u.snapshot.disk == g.snapshot.disk && u.snapshot.lastSaved == g.snapshot.lastSaved
            && u.store == Compacted(g.store, now)
  {
    hide Execute, Step, Compacted, Compact, DumpOf, PubSub.Subscribe, PubSub.Unsubscribe, PubSub.Disconnect;
  }

  /** A save that ends well leaves at the path the dump of the store it began with, and that store's count
      as the one last saved, whatever has happened in between, further BGSAVEs included; one that ends badly
      leaves file and count as they were. Either way nothing is pending any more. */
  lemma {:induction false} SaveCompletes(g: Engine, e: Event, now: int, between: seq<Event>, ok: bool)
    requires g.snapshot.saving == None && BeginsSave(g, e, now) && NoneEnds(between)
    ensures var u := RunEngine(g, [e] + between + [Beside(Written(ok))]);
            && u.snapshot.saving == None
            && u.snapshot.disk == (if ok then Some(DumpOf(Compacted(g.store, now), now)) else g.snapshot.disk)
            && u.snapshot.lastSaved == (if ok then g.store.dirty else g.snapshot.lastSaved)
  {
    hide StepEngine, RunEngine, Compacted, DumpOf, BeginsSave;
    var begun := StepEngine(g, e);
    SaveBegins(g, e, now);
    OneEvent(g, e);
    PendingStays(begun, between);
    RunEngineAppend(g, [e], between);
    RunEngineAppend(g, [e] + between, [Beside(Written(ok))]);
    OneEvent(RunEngine(begun, between), Beside(Written(ok)));
    SaveEnds(RunEngine(begun, between), ok);
  }

  lemma {:induction false} SaveEnds(g: Engine, ok: bool)
    requires g.snapshot.saving.Some?
    ensures var u := StepEngine(g, Beside(Written(ok)));
            && u.snapshot.saving == None
            && u.snapshot.disk == (if ok then Some(g.snapshot.saving.value.0) else g.snapshot.disk)
            && u.snapshot.lastSaved == (if ok then g.snapshot.saving.value.1 else g.snapshot.lastSaved)
  {
  }

  /** Nothing else begins a save, and the timer does not while the count is the one last saved. */
  lemma {:induction false} NothingElseSaves(g: Engine, e: Event)
    requires g.snapshot.saving == None && forall now :: !BeginsSave(g, e, now)
    ensures StepEngine(g, e).snapshot == g.snapshot
  {
    hide Execute, Step, Compacted, Compact, DumpOf, PubSub.Subscribe, PubSub.Unsubscribe, PubSub.Disconnect;
    hide PubSub.Deliveries;
    match e
    case Command(now, item) => assert !BeginsSave(g, e, now);
    case Beside(tick) => if tick.Checkpoint? { assert !BeginsSave(g, e, tick.now); }
  }
}
