/** What one parsed command does: its store operation, its reply text, and whether its line is
    written to the append-only file; and what that makes of store and file together. */
module Execution {
  import opened Options
  import opened Text
  import opened StoreSpec
  import opened StoreFacts
  import opened CommandParser
  import opened Printing
  import opened AofSteps
  import opened Dumping
  import PubSub
  import Replies

  datatype Effected = Effected(state: State, reply: string, logged: bool)

  function ReplyText(o: Outcome): string {
    match o
    case Done => Replies.Ok("OK")
    case Flag(b) => Replies.Integer(if b then 1 else 0)
    case Num(n) => Replies.Integer(n)
    case Text(t) => if t.Some? then Replies.Value(t.value) else Replies.Nil()
    case Items(items) => Replies.ArrayText(items)
    case KindIs(_) => Replies.Nil()
    case WrongType => Replies.WrongType()
  }

  /** Only an operation that reports a change is logged; for HSET that is an added field. */
  predicate Logs(act: Act, o: Outcome) {
    match act
    case Set(_, _) => true
    case Del => o == Flag(true)
    case Expire(_) => o == Flag(true)
    case Persist => o == Flag(true)
    case LPush(_) => o != WrongType
    case RPush(_) => o != WrongType
    case LPop => o.Text? && o.text.Some?
    case RPop => o.Text? && o.text.Some?
    case HSet(_) => o.Num? && o.n > 0
    case HDel(_) => o.Num? && o.n > 0
    case _ => false
  }

  function ExecuteData(s: State, now: int, k: string, act: Act): Effected {
    var (u, o) := Step(s, now, OnKey(k, act));
    Effected(u, ReplyText(o), Logs(act, o))
  }

  /** GET asks for the kind first, so that a list or a hash is a type error and not a miss. */
  function ExecuteGet(s: State, now: int, k: string): Effected {
    var (u, o) := Step(s, now, OnKey(k, TypeOf));
    if o != KindIs(None) && o != KindIs(Some(StringKind)) then Effected(u, Replies.WrongType(), false)
    else ExecuteData(u, now, k, Act.Get)
  }

  /** The commands of a handler that has a store and nothing else, such as the one that replays the
      append-only file at startup. */
  function Execute(s: State, now: int, c: Command): Effected {
    match c
    case OnData(k, act) => if act.Get? then ExecuteGet(s, now, k) else ExecuteData(s, now, k, act)
    case ListKeys(pattern) =>
      var (u, o) := Step(s, now, Keys(pattern));
      Effected(u, ReplyText(o), false)
    case BgSave => Effected(s, Replies.Error("persistence not configured"), false)
    case BgRewriteAof => Effected(s, Replies.Error("AOF not configured"), false)
    case Subscribe(_) => Effected(s, Replies.Error("Pub/Sub not configured"), false)
    case Unsubscribe(_) => Effected(s, Replies.Error("Pub/Sub not configured"), false)
    case Publish(_, _) => Effected(s, Replies.Error("Pub/Sub not configured"), false)
    case Auth(_) => Effected(s, Replies.Ok("OK"), false)
    case _ => Effected(s, Replies.Error("unhandled command"), false)
  }

  // ----- The running engine -----

  /** A command, the line it was parsed from, and the connection that sent it. */
  datatype Item = Item(conn: string, line: string, command: Command)

  /** The store, the append-only file's writer, the snapshot manager, who is subscribed to what, and the
      messages pushed to subscribers so far. */
  datatype Engine = Engine(
    store: State, writer: Writer, snapshot: Snapshot, registry: PubSub.Registry, pushed: seq<(string, string)>)

  /** What a command comes to: its reply, or the exception of a write to a closed descriptor. */
  datatype Answer = Reply(text: string) | Thrown

  /** A command of the running engine. BGREWRITEAOF and BGSAVE print the whole store on the spot, unless
      one of their kind is pending already; either way they reply at once. */
  function ExecuteItem(g: Engine, now: int, item: Item): (Engine, Answer) {
    match item.command
    case BgRewriteAof => (BeginRewrite(g, now), Reply(Replies.Ok("OK")))
    case BgSave => (BeginSnapshot(g, now), Reply(Replies.Ok("OK")))
    case Subscribe(chs) =>
      (g.(registry := PubSub.Subscribe(g.registry, item.conn, chs)),
       Reply(Replies.Concat(PubSub.SubscribeAnswer(g.registry, item.conn, chs))))
    case Unsubscribe(chs) =>
      (g.(registry := PubSub.Unsubscribe(g.registry, item.conn, chs)),
       Reply(Replies.Concat(PubSub.UnsubscribeAnswer(g.registry, item.conn, chs))))
    case Publish(channel, message) =>
      var deliveries := PubSub.Deliveries(g.registry, channel, message);
      (g.(pushed := g.pushed + deliveries), Reply(Replies.Integer(|deliveries|)))
    case _ => WithLog(g, item.line, Execute(g.store, now, item.command))
  }

  /** The commands that are not about the store's data. */
  predicate IsService(c: Command) {
    c.BgSave? || c.BgRewriteAof? || c.Subscribe? || c.Unsubscribe? || c.Publish?
  }

  function WithLog(g: Engine, line: string, d: Effected): (Engine, Answer) {
    var (w, answer) := LogLine(g.writer, line, d);
    (g.(store := d.state, writer := w), answer)
  }

  /** The command has changed the store; its line is written, if it must be, before the reply. */
  function LogLine(w: Writer, line: string, d: Effected): (Writer, Answer) {
    if d.logged then (Append(w, Trim(line)), if w.fd.Stale? then Thrown else Reply(d.reply))
    else (w, Reply(d.reply))
  }

  function BeginRewrite(g: Engine, now: int): Engine {
    if g.writer.phase.Idle? then
      g.(store := Compacted(g.store, now), writer := Begin(g.writer, Compact(g.store, now)))
    else g
  }

  function BeginSnapshot(g: Engine, now: int): Engine {
    var (s, snapshot) := Taken(g.store, g.snapshot, now);
    g.(store := s, snapshot := snapshot)
  }

  /** What happens beside the commands: an await of a pending rewrite ends, the sweeper's timer fires,
      the snapshot timer fires, an await of a pending save ends, or a connection is lost. */
  datatype Tick =
    | Awaited(ok: bool)
    | Swept(now: int, limit: int)
    | Checkpoint(now: int)
    | Written(ok: bool)
    | Lost(conn: string)

  function Ticked(g: Engine, tick: Tick): Engine {
    match tick
    case Awaited(ok) => g.(writer := Continue(g.writer, ok))
    case Swept(now, limit) => g.(store := Step(g.store, now, Sweep(limit)).0)
    case Checkpoint(now) =>
      var (s, snapshot) := Checked(g.store, g.snapshot, now);
      g.(store := s, snapshot := snapshot)
    case Written(ok) => g.(snapshot := if ok then Finished(g.snapshot) else Abandoned(g.snapshot))
    case Lost(conn) => g.(registry := PubSub.Disconnect(g.registry, conn))
  }

  /** An engine on the given store, with nothing else yet. */
  function Fresh(s: State): Engine {
    Engine(s, Writer([], Open, Idle), Snapshot(None, 0, None), PubSub.NOBODY, [])
  }

  /** A command throws exactly when its line must be written and the descriptor has been closed. */
  lemma {:induction false} ThrownExactly(g: Engine, now: int, item: Item)
    ensures ExecuteItem(g, now, item).1.Thrown? <==> Execute(g.store, now, item.command).logged && g.writer.fd.Stale?
    ensures Execute(g.store, now, item.command).logged ==>
              ExecuteItem(g, now, item).0.store == Execute(g.store, now, item.command).state
  {
    hide Step, Taken, Compacted, PubSub.Subscribe, PubSub.Unsubscribe, PubSub.Deliveries;
  }

  lemma {:induction false} ExecuteValid(s: State, now: int, c: Command)
    requires s.Valid()
    ensures Execute(s, now, c).state.Valid()
    ensures Execute(s, now, c).state.capacity == s.capacity
  {
    hide State.Valid, Step;
    if c.OnData? {
      StepValid(s, now, OnKey(c.key, c.act));
      StepValid(s, now, OnKey(c.key, TypeOf));
      StepValid(Step(s, now, OnKey(c.key, TypeOf)).0, now, OnKey(c.key, Act.Get));
    } else if c.ListKeys? {
      StepValid(s, now, Keys(c.pattern));
    }
  }
}
