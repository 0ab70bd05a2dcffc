/** The command handler as an object: it drives the store, keeps each connection's transaction, hands
    the lines that must be logged to the append-only file's writer, and passes on what concerns the
    snapshots and the subscriptions. */
module Server {
  import opened Options
  import opened Text
  import opened StoreSpec
  import opened Memory
  import opened Aof
  import opened Snapshots
  import opened Broker
  import opened CommandParser
  import opened Printing
  import opened AofSteps
  import opened Dumping
  import opened Execution
  import opened Transactions
  import opened Guarding
  import PubSub
  import Replies

  class CommandHandler {
    const store: InMemoryStore
    const persistence: PersistenceManager
    const aof: AofWriter
    const pubSub: PubSubManager
    const policy: Policy
    /** The connections that have sent the password. */
    var authenticated: set<string>
    /** Per connection, the queued commands of its open transaction. */
    var transactions: map<string, seq<Item>>

    ghost predicate Valid()
      reads this, store, store.lru, store.lru.footprint, store.expiry, aof
    {
      store.Valid() && aof.Valid() && persistence.store == store
    }

    ghost function ViewEngine(): Engine
      requires aof.Valid()
      reads this, store, store.lru, store.expiry, aof, aof.file, aof.temp, persistence, pubSub
    {
      Engine(store.View(), aof.View(), persistence.View(), pubSub.View(), pubSub.written)
    }

    ghost function View(): Guarded
      requires aof.Valid()
      reads this, store, store.lru, store.expiry, aof, aof.file, aof.temp, persistence, pubSub
    {
      Guarded(Handler(ViewEngine(), transactions), authenticated)
    }

    constructor (persistence: PersistenceManager, aof: AofWriter, pubSub: PubSubManager, policy: Policy)
      requires persistence.store.Valid() && aof.Valid()
      ensures Valid() && store == persistence.store
      ensures this.persistence == persistence && this.aof == aof && this.pubSub == pubSub && this.policy == policy
      ensures View() == Locked(ViewEngine())
    {
      this.store, this.persistence, this.aof, this.pubSub := persistence.store, persistence, aof, pubSub;
      this.policy := policy;
      transactions, authenticated := map[], {};
    }

    /** Hand the line to the writer, then reply; if the write throws, there is no reply. */
    method LogAndReply(line: string, reply: string) returns (answer: Answer)
      requires Valid()
      modifies aof, aof.file
      ensures Valid() && aof.file == old(aof.file) && aof.temp == old(aof.temp)
      ensures aof.View() == Append(old(aof.View()), Trim(line))
      ensures answer == if old(aof.View()).fd.Stale? then Thrown else Reply(reply)
    {
      hide InMemoryStore.Valid;
      var written := aof.Write(line);
      answer := if written then Reply(reply) else Thrown;
    }

    method LogIf(changed: bool, line: string, reply: string) returns (answer: Answer)
      requires Valid()
      modifies aof, aof.file
      ensures Valid() && aof.file == old(aof.file) && aof.temp == old(aof.temp)
      ensures aof.View() == if changed then Append(old(aof.View()), Trim(line)) else old(aof.View())
      ensures answer == if changed && old(aof.View()).fd.Stale? then Thrown else Reply(reply)
    {
      hide InMemoryStore.Valid;
      if changed {
        answer := LogAndReply(line, reply);
      } else {
        answer := Reply(reply);
      }
    }

    method ExecuteKey(key: string, act: Act, line: string, now: int) returns (answer: Answer)
      requires Valid()
      requires act.Set? || act.Del? || act.Expire? || act.Exists? || act.Ttl? || act.Persist?
      modifies store, store.lru, store.lru.footprint, store.expiry, aof, aof.file
      ensures Valid() && fresh(store.lru.footprint - old(store.lru.footprint))
      ensures aof.file == old(aof.file) && aof.temp == old(aof.temp)
      ensures var d := ExecuteData(old(store.View()), now, key, act);
              store.View() == d.state && (aof.View(), answer) == LogLine(old(aof.View()), line, d)
    {
      hide InMemoryStore.Valid, InMemoryStore.View, KeyStep, ExecuteData, LogLine;
      hide AofWriter.Valid, AofWriter.View, Append, Trim;
      DataDone(aof.View(), line, store.View(), now, key, act);
      match act
      case Set(value, ttl) =>
        store.Set(key, value, ttl, now);
        SetDone(old(store.View()), now, key, value, ttl);
        answer := LogAndReply(line, Replies.Ok("OK"));
      case Del =>
        var removed := store.Delete(key, now);
        answer := LogIf(removed, line, Replies.Integer(if removed then 1 else 0));
      case Expire(seconds) =>
        var applied := store.Expire(key, seconds, now);
        answer := LogIf(applied, line, Replies.Integer(if applied then 1 else 0));
      case Exists =>
        var present := store.Exists(key, now);
        return Reply(Replies.Integer(if present then 1 else 0));
      case Ttl =>
        var seconds := store.Ttl(key, now);
        return Reply(Replies.Integer(seconds));
      case Persist =>
        var applied := store.Persist(key, now);
        answer := LogIf(applied, line, Replies.Integer(if applied then 1 else 0));
    }

    /** GET asks for the kind first. */
    method ExecuteGetCommand(key: string, ghost line: string, now: int) returns (answer: Answer)
      requires Valid()
      modifies store, store.lru, store.lru.footprint, store.expiry, aof, aof.file
      ensures Valid() && fresh(store.lru.footprint - old(store.lru.footprint))
      ensures aof.file == old(aof.file) && aof.temp == old(aof.temp)
      ensures var d := ExecuteGet(old(store.View()), now, key);
              store.View() == d.state && (aof.View(), answer) == LogLine(old(aof.View()), line, d)
    {
      hide InMemoryStore.Valid, InMemoryStore.View, KeyStep;
      var kind := store.KeyType(key, now);
      if kind.Some? && kind.value != StringKind {
        return Reply(Replies.WrongType());
      }
      var found := store.Get(key, now);
      return Reply(if found.None? then Replies.Nil() else Replies.Value(found.value));
    }

    method ExecuteList(key: string, act: Act, line: string, now: int) returns (answer: Answer)
      requires Valid()
      requires act.LPush? || act.RPush? || act.LPop? || act.RPop? || act.LRange? || act.LLen?
      modifies store, store.lru, store.lru.footprint, store.expiry, aof, aof.file
      ensures Valid() && fresh(store.lru.footprint - old(store.lru.footprint))
      ensures aof.file == old(aof.file) && aof.temp == old(aof.temp)
      ensures var d := ExecuteData(old(store.View()), now, key, act);
              store.View() == d.state && (aof.View(), answer) == LogLine(old(aof.View()), line, d)
    {
      hide InMemoryStore.Valid, InMemoryStore.View, KeyStep, ExecuteData, LogLine;
      hide AofWriter.Valid, AofWriter.View, Append, Trim;
      DataDone(aof.View(), line, store.View(), now, key, act);
      ContainerReplies(act);
      hide Logs, ReplyText, NumReply, TextReply, NumOutcome, TextOutcome, ItemsOutcome;
      match act
      case LPush(pushed) =>
        var result := store.LPush(key, pushed, now);
        answer := LogIf(result.Ok?, line, NumReply(result));
      case RPush(pushed) =>
        var result := store.RPush(key, pushed, now);
        answer := LogIf(result.Ok?, line, NumReply(result));
      case LPop =>
        var result := store.LPop(key, now);
        answer := LogIf(result.Ok? && result.value.Some?, line, TextReply(result));
      case RPop =>
        var result := store.RPop(key, now);
        answer := LogIf(result.Ok? && result.value.Some?, line, TextReply(result));
      case LRange(start, stop) =>
        var result := store.LRange(key, start, stop, now);
        var reply := ItemsReply(result);
        return Reply(reply);
      case LLen =>
        var result := store.LLen(key, now);
        return Reply(NumReply(result));
    }

    method ExecuteHash(key: string, act: Act, line: string, now: int) returns (answer: Answer)
      requires Valid()
      requires act.HSet? || act.HGet? || act.HDel? || act.HGetAll? || act.HLen?
      modifies store, store.lru, store.lru.footprint, store.expiry, aof, aof.file
      ensures Valid() && fresh(store.lru.footprint - old(store.lru.footprint))
      ensures aof.file == old(aof.file) && aof.temp == old(aof.temp)
      ensures var d := ExecuteData(old(store.View()), now, key, act);
              store.View() == d.state && (aof.View(), answer) == LogLine(old(aof.View()), line, d)
    {
      hide InMemoryStore.Valid, InMemoryStore.View, KeyStep, ExecuteData, LogLine;
      hide AofWriter.Valid, AofWriter.View, Append, Trim;
      DataDone(aof.View(), line, store.View(), now, key, act);
      ContainerReplies(act);
      hide Logs, ReplyText, NumReply, TextReply, NumOutcome, TextOutcome, ItemsOutcome;
      match act
      case HSet(pairs) =>
        var result := store.HSet(key, pairs, now);
        answer := LogIf(result.Ok? && result.value > 0, line, NumReply(result));
      case HGet(field) =>
        var result := store.HGet(key, field, now);
        return Reply(TextReply(result));
      case HDel(fields) =>
        var result := store.HDel(key, fields, now);
        answer := LogIf(result.Ok? && result.value > 0, line, NumReply(result));
      case HGetAll =>
        var result := store.HGetAll(key, now);
        var reply := ItemsReply(result);
        return Reply(reply);
      case HLen =>
        var result := store.HLen(key, now);
        return Reply(NumReply(result));
    }

    /** The commands that print the store, and those of the subscriptions. */
    method ExecuteService(item: Item, now: int) returns (answer: Answer)
      requires Valid() && IsService(item.command)
      modifies store, store.lru, store.lru.footprint, store.expiry, aof, aof.file, persistence, pubSub
      ensures Valid() && fresh(store.lru.footprint - old(store.lru.footprint))
      ensures aof.file == old(aof.file) && aof.temp == old(aof.temp)
      ensures (ViewEngine(), answer) == ExecuteItem(old(ViewEngine()), now, item)
    {
      hide InMemoryStore.Valid, InMemoryStore.View, AofWriter.Valid, AofWriter.View, Execute, Compacted, Compact;
      hide PersistenceManager.View, PubSubManager.View, Taken, PubSub.Subscribe, PubSub.Unsubscribe;
      hide PubSub.SubscribeAnswer, PubSub.UnsubscribeAnswer, PubSub.Deliveries, Replies.Concat, Append, Trim;
      match item.command
      case BgSave =>
        var _ := persistence.Save(now);
        return Reply(Replies.Ok("OK"));
      case BgRewriteAof =>
        var _ := aof.Rewrite(store, now);
        return Reply(Replies.Ok("OK"));
      case Subscribe(channels) =>
        var replies := pubSub.Subscribe(item.conn, channels);
        return Reply(Replies.Concat(replies));
      case Unsubscribe(channels) =>
        var replies := pubSub.Unsubscribe(item.conn, channels);
        return Reply(Replies.Concat(replies));
      case Publish(channel, message) =>
        var count := pubSub.Publish(channel, message);
        return Reply(Replies.Integer(count));
    }

    /** One command of any kind. */
    method ExecuteCommand(item: Item, now: int) returns (answer: Answer)
      requires Valid() && (item.command.OnData? ==> !item.command.act.TypeOf?)
      modifies store, store.lru, store.lru.footprint, store.expiry, aof, aof.file, persistence, pubSub
      ensures Valid() && fresh(store.lru.footprint - old(store.lru.footprint))
      ensures aof.file == old(aof.file) && aof.temp == old(aof.temp)
      ensures (ViewEngine(), answer) == ExecuteItem(old(ViewEngine()), now, item)
    {
      hide InMemoryStore.Valid, InMemoryStore.View, AofWriter.Valid, AofWriter.View, Step, ExecuteData, ExecuteGet;
      hide PersistenceManager.View, PubSubManager.View, Append, Trim;
      if IsService(item.command) {
        answer := ExecuteService(item, now);
        return;
      }
      match item.command
      case OnData(key, act) =>
        if act.Get? {
          answer := ExecuteGetCommand(key, item.line, now);
        } else if act.LPush? || act.RPush? || act.LPop? || act.RPop? || act.LRange? || act.LLen? {
          answer := ExecuteList(key, act, item.line, now);
        } else if act.HSet? || act.HGet? || act.HDel? || act.HGetAll? || act.HLen? {
          answer := ExecuteHash(key, act, item.line, now);
        } else {
          answer := ExecuteKey(key, act, item.line, now);
        }
      case ListKeys(pattern) =>
        var matched := store.MatchingKeys(pattern, now);
        var reply := Replies.Array(matched);
        return Reply(reply);
      case Auth(_) => return Reply(Replies.Ok("OK"));
      case _ => return Reply(Replies.Error("unhandled command"));
    }

    /** EXEC: the queued commands in order, nothing in between; an exception ends it. */
    method ExecuteAll(queue: seq<Item>, now: int) returns (results: Option<seq<string>>)
      requires Valid() && forall i :: 0 <= i < |queue| && queue[i].command.OnData? ==> !queue[i].command.act.TypeOf?
      modifies store, store.lru, store.lru.footprint, store.expiry, aof, aof.file, persistence, pubSub
      ensures Valid() && fresh(store.lru.footprint - old(store.lru.footprint))
      ensures aof.file == old(aof.file) && aof.temp == old(aof.temp)
      ensures (ViewEngine(), results) == ExecuteQueue(old(ViewEngine()), now, queue)
    {
      hide InMemoryStore.Valid, InMemoryStore.View, AofWriter.Valid, AofWriter.View, ExecuteItem;
      var collected: seq<string> := [];
      var i := 0;
      while i < |queue|
        invariant 0 <= i <= |queue|
        invariant Valid() && fresh(store.lru.footprint - old(store.lru.footprint))
        invariant aof.file == old(aof.file) && aof.temp == old(aof.temp)
        invariant (ViewEngine(), Some(collected)) == ExecuteQueue(old(ViewEngine()), now, queue[..i])
      {
        assert queue[..i + 1][..i] == queue[..i];
        var answer := ExecuteCommand(queue[i], now);
        if answer.Thrown? {
          ThrownQueue(old(ViewEngine()), now, queue, i + 1);
          return None;
        }
        collected := collected + [answer.text];
        i := i + 1;
      }
      assert queue[..i] == queue;
      return Some(collected);
    }

    /** Only what a line parses to is ever queued. */
    ghost predicate Queues()
      reads this
    {
      forall conn :: conn in transactions ==> Queueable(conn, transactions[conn])
    }

    /** The reaction to one line. */
    method HandleLine(line: string, conn: string, now: int) returns (answer: Answer)
      requires Valid() && Queues()
      modifies this, store, store.lru, store.lru.footprint, store.expiry, aof, aof.file, persistence, pubSub
      ensures Valid() && Queues() && fresh(store.lru.footprint - old(store.lru.footprint))
      ensures aof.file == old(aof.file) && aof.temp == old(aof.temp)
      ensures (View(), answer) == HandleGuarded(policy, old(View()), conn, now, line)
    {
      hide InMemoryStore.Valid, InMemoryStore.View, AofWriter.Valid, AofWriter.View, Parse, NameFor;
      hide Transactions.HandleLine, Queueable;
      hide PersistenceManager.View, PubSubManager.View, PubSub.IsSubscribed;
      hide Replies.Error, Replies.Ok, Replies.RawArrayText;
      var parsed := Parse(line);
      if parsed.Malformed? {
        return Reply(Replies.Error(parsed.message));
      }
      var command := parsed.command;
      if policy.password.Some? && conn !in authenticated {
        if command.Auth? {
          if command.password == policy.password.value {
            authenticated := authenticated + {conn};
            return Reply(Replies.Ok("OK"));
          }
          return Reply(Replies.Error("invalid password"));
        }
        return Reply(Replies.Error("NOAUTH Authentication required."));
      }
      if NameFor(command) in policy.disabled {
        return Reply(Replies.Error("command disabled"));
      }
      var subscribed := pubSub.IsSubscribed(conn);
      if subscribed && !command.Subscribe? && !command.Unsubscribe? {
        return Reply(Replies.Error(RESTRICTED));
      }
      answer := Dispatch(command, line, conn, now);
    }

    /** A line that has been let through: transaction control, queueing, or execution. */
    method Dispatch(command: Command, line: string, conn: string, now: int) returns (answer: Answer)
      requires Valid() && Queues() && Parse(line) == Parsed(command)
      modifies this, store, store.lru, store.lru.footprint, store.expiry, aof, aof.file, persistence, pubSub
      ensures Valid() && Queues() && fresh(store.lru.footprint - old(store.lru.footprint))
      ensures aof.file == old(aof.file) && aof.temp == old(aof.temp)
      ensures authenticated == old(authenticated)
      ensures (View().handler, answer) == Transactions.HandleLine(old(View().handler), conn, now, line)
    {
      hide InMemoryStore.Valid, InMemoryStore.View, AofWriter.Valid, AofWriter.View, Parse, ExecuteItem, ExecuteQueue;
      hide PersistenceManager.View, PubSubManager.View, Replies.Error, Replies.Ok, Replies.RawArrayText;
      NeverAsksType(line);
      var inTransaction := conn in transactions;
      if command.Multi? {
        if inTransaction {
          return Reply(Replies.Error("MULTI calls can not be nested"));
        }
        transactions := transactions[conn := []];
        return Reply(Replies.Ok("OK"));
      }
      if command.Exec? {
        if !inTransaction {
          return Reply(Replies.Error("EXEC without MULTI"));
        }
        var queue := transactions[conn];
        QueuesNoType(conn, queue);
        transactions := transactions - {conn};
        var results := ExecuteAll(queue, now);
        if results.None? {
          return Thrown;
        }
        var reply := Replies.RawArray(results.value);
        return Reply(reply);
      }
      if command.Discard? {
        if !inTransaction {
          return Reply(Replies.Error("DISCARD without MULTI"));
        }
        transactions := transactions - {conn};
        return Reply(Replies.Ok("OK"));
      }
      if inTransaction {
        transactions := transactions[conn := transactions[conn] + [Item(conn, line, command)]];
        return Reply(Replies.Ok("QUEUED"));
      }
      answer := ExecuteCommand(Item(conn, line, command), now);
    }
  }

  /** What a command that throws makes of the rest of its queue. */
  lemma {:induction false} ThrownQueue(g: Engine, now: int, queue: seq<Item>, n: nat)
    requires n <= |queue| && ExecuteQueue(g, now, queue[..n]).1.None?
    ensures ExecuteQueue(g, now, queue) == ExecuteQueue(g, now, queue[..n])
    decreases |queue|
  {
    hide ExecuteItem;
    if n == |queue| {
      assert queue[..n] == queue;
    } else {
      var front := queue[..|queue| - 1];
      assert front[..n] == queue[..n];
      ThrownQueue(g, now, front, n);
    }
  }

  function NumReply(r: StoreResult<int>): string {
    if r.Ok? then Replies.Integer(r.value) else Replies.WrongType()
  }

  function TextReply(r: StoreResult<Option<string>>): string {
    if r.Mismatch? then Replies.WrongType()
    else if r.value.None? then Replies.Nil()
    else Replies.Value(r.value.value)
  }

  /** How a container command's result is answered, and when it is logged. */
  lemma {:induction false} ContainerReplies(act: Act)
    ensures forall r: StoreResult<int> :: ReplyText(NumOutcome(r)) == NumReply(r)
    ensures forall r: StoreResult<Option<string>> :: ReplyText(TextOutcome(r)) == TextReply(r)
    ensures forall r: StoreResult<int> :: Logs(act, NumOutcome(r)) <==>
              act.Set? || (r.Ok? && (act.LPush? || act.RPush? || ((act.HSet? || act.HDel?) && r.value > 0)))
    ensures forall r: StoreResult<Option<string>> :: act.LPop? || act.RPop? ==>
              (Logs(act, TextOutcome(r)) <==> r.Ok? && r.value.Some?)
    ensures act.HGet? || act.LRange? || act.HGetAll? ==> forall o :: !Logs(act, o)
  {
    hide Replies.Integer, Replies.Value, Replies.Nil, Replies.WrongType, Replies.ArrayText, Replies.Ok;
  }

  method ItemsReply(r: StoreResult<seq<string>>) returns (reply: string)
    ensures reply == ReplyText(ItemsOutcome(r))
  {
    if r.Mismatch? {
      return Replies.WrongType();
    }
    reply := Replies.Array(r.value);
  }

  lemma {:induction false} DataDone(w: Writer, line: string, s: State, now: int, key: string, act: Act)
    ensures var (u, o) := KeyStep(s, now, key, act);
            var d := ExecuteData(s, now, key, act);
            && d.state == u
            && LogLine(w, line, d) ==
               if Logs(act, o) then (Append(w, Trim(line)), if w.fd.Stale? then Thrown else Reply(ReplyText(o)))
               else (w, Reply(ReplyText(o)))
  {
    hide KeyStep, Logs, ReplyText, Append;
  }

  lemma {:induction false} SetDone(s: State, now: int, k: string, x: string, ttl: Option<int>)
    ensures KeyStep(s, now, k, Act.Set(x, ttl)).1 == Done
  {
  }

  /** No line parses to the store's internal question for a key's kind. */
  lemma {:induction false} NeverAsksType(line: string)
    requires Parse(line).Parsed?
    ensures Parse(line).command.OnData? ==> !Parse(line).command.act.TypeOf?
  {
    ParsedWellFormed(line);
    hide Parse, IsToken;
  }

  lemma {:induction false} QueuesNoType(conn: string, queue: seq<Item>)
    requires Queueable(conn, queue)
    ensures forall i :: 0 <= i < |queue| && queue[i].command.OnData? ==> !queue[i].command.act.TypeOf?
  {
    hide Parse;
    forall i | 0 <= i < |queue| && queue[i].command.OnData? ensures !queue[i].command.act.TypeOf? {
      NeverAsksType(queue[i].line);
    }
  }
}
