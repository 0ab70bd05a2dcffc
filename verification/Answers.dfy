/** What a client hears of the server: the text that goes out for its lines, fed to its reply parser in
    any pieces. */
module Answers {
  import opened Options
  import opened Sequences
  import opened Text
  import opened StoreSpec
  import opened StoreFacts
  import opened CommandParser
  import opened Compaction
  import opened Execution
  import opened Transactions
  import opened Guarding
  import opened EngineRuns
  import opened Recovery
  import opened Access
  import opened ReplyStream
  import opened ReplyRoundTrip
  import Conservation
  import StoreRelations
  import PubSub
  import Replies

  // ----- The replies that answers are the text of -----

  function SentOutcome(o: Outcome): Sent {
    match o
    case Done => SentOk("OK")
    case Flag(b) => SentInteger(if b then 1 else 0)
    case Num(n) => SentInteger(n)
    case Text(t) => if t.Some? then SentValue(t.value) else SentNil
    case Items(items) => SentArray(items)
    case KindIs(_) => SentNil
    case WrongType => SentWrongType
  }

  function SentCommand(s: State, now: int, c: Command): Sent {
    match c
    case OnData(k, act) =>
      if !act.Get? then SentOutcome(Step(s, now, OnKey(k, act)).1)
      else
        var (u, o) := Step(s, now, OnKey(k, TypeOf));
        if o != KindIs(None) && o != KindIs(Some(StringKind)) then SentWrongType
        else SentOutcome(Step(u, now, OnKey(k, Act.Get)).1)
    case ListKeys(pattern) => SentOutcome(Step(s, now, Keys(pattern)).1)
    case Auth(_) => SentOk("OK")
    case _ => SentError("unhandled command")
  }

  /** The reply to a command of the engine other than SUBSCRIBE and UNSUBSCRIBE, which send one reply a
      channel. */
  function SentItem(g: Engine, now: int, item: Item): Sent {
    match item.command
    case BgRewriteAof | BgSave => SentOk("OK")
    case Publish(channel, message) => SentInteger(|PubSub.Deliveries(g.registry, channel, message)|)
    case c => SentCommand(g.store, now, c)
  }

  function SentQueue(g: Engine, now: int, queue: seq<Item>): (r: seq<Sent>)
    ensures |r| == |queue|
  {
    if queue == [] then []
    else
      var n := |queue| - 1;
      SentQueue(g, now, queue[..n]) + [SentItem(ExecuteQueue(g, now, queue[..n]).0, now, queue[n])]
  }

  /** What the connection is sent when a command throws. */
  const INTERNAL: Sent := SentError("internal server error")

  function WireText(a: Answer): string {
    if a.Thrown? then Encode(INTERNAL) else a.text
  }

  function SentHandled(h: Handler, conn: string, now: int, text: string, c: Command): Sent {
    var open := conn in h.transactions;
    match c
    case Multi => if open then SentError("MULTI calls can not be nested") else SentOk("OK")
    case Exec =>
      if !open then SentError("EXEC without MULTI")
      else if ExecuteQueue(h.engine, now, h.transactions[conn]).1.None? then INTERNAL
      else SentExec(SentQueue(h.engine, now, h.transactions[conn]))
    case Discard => if !open then SentError("DISCARD without MULTI") else SentOk("OK")
    case _ =>
      if open then SentOk("QUEUED")
      else if ExecuteItem(h.engine, now, Item(conn, text, c)).1.Thrown? then INTERNAL
      else SentItem(h.engine, now, Item(conn, text, c))
  }

  /** The reply to one line. */
  function SentLine(p: Policy, g: Guarded, conn: string, now: int, text: string): Sent {
    var parsed := Parse(text);
    if parsed.Malformed? then SentError(parsed.message)
    else if p.password.Some? && conn !in g.authenticated then
      if !parsed.command.Auth? then SentError("NOAUTH Authentication required.")
      else if parsed.command.password != p.password.value then SentError("invalid password")
      else SentOk("OK")
    else if NameFor(parsed.command) in p.disabled then SentError("command disabled")
    else if Restricted(g.handler.engine, conn, parsed.command) then SentError(RESTRICTED)
    else SentHandled(g.handler, conn, now, text, parsed.command)
  }

  /** The texts sent for a connection's lines, and the replies they encode. */
  function AnswersTo(p: Policy, g: Engine, trace: seq<Input>, conn: string): seq<string> {
    if trace == [] then []
    else
      var before, last := trace[..|trace| - 1], trace[|trace| - 1];
      AnswersTo(p, g, before, conn)
      + if last.Line? && last.conn == conn
        then [WireText(HandleGuarded(p, GuardAll(p, Locked(g), before), conn, last.now, last.text).1)]
        else []
  }

  function SentTo(p: Policy, g: Engine, trace: seq<Input>, conn: string): seq<Sent> {
    if trace == [] then []
    else
      var before, last := trace[..|trace| - 1], trace[|trace| - 1];
      SentTo(p, g, before, conn)
      + if last.Line? && last.conn == conn
        then [SentLine(p, GuardAll(p, Locked(g), before), conn, last.now, last.text)]
        else []
  }

  // ----- The answers are their encodings -----

  lemma {:induction false} OutcomeEncoded(o: Outcome)
    ensures Encode(SentOutcome(o)) == ReplyText(o) && !SentOutcome(o).SentExec?
  {
    hide IntText;
  }

  lemma {:induction false} CommandEncoded(s: State, now: int, c: Command)
    requires !c.BgSave? && !c.BgRewriteAof? && !c.Subscribe? && !c.Unsubscribe? && !c.Publish?
    ensures Encode(SentCommand(s, now, c)) == Execute(s, now, c).reply && !SentCommand(s, now, c).SentExec?
  {
    hide Step, Encode, SentOutcome, ReplyText;
    ErrorsEncoded();
    match c
    case OnData(k, act) =>
      var (u, o) := Step(s, now, OnKey(k, TypeOf));
      OutcomeEncoded(Step(s, now, OnKey(k, act)).1);
      OutcomeEncoded(Step(u, now, OnKey(k, Act.Get)).1);
    case ListKeys(pattern) => OutcomeEncoded(Step(s, now, Keys(pattern)).1);
    case _ =>
  }

  lemma {:induction false} ErrorsEncoded()
    ensures forall m: string {:trigger Encode(SentError(m))} :: Encode(SentError(m)) == Replies.Error(m)
    ensures forall m: string {:trigger Encode(SentOk(m))} :: Encode(SentOk(m)) == Replies.Ok(m)
    ensures Encode(SentWrongType) == Replies.WrongType()
  {
  }

  /** Neither subscribing nor unsubscribing. */
  predicate SingleReply(c: Command) { !c.Subscribe? && !c.Unsubscribe? }

  lemma {:induction false} ItemEncoded(g: Engine, now: int, item: Item)
    requires SingleReply(item.command)
    ensures var a := ExecuteItem(g, now, item).1;
            a.Reply? ==> a.text == Encode(SentItem(g, now, item))
    ensures !SentItem(g, now, item).SentExec?
  {
    hide Execute, SentCommand, PubSub.Deliveries, Encode;
    ErrorsEncoded();
    if item.command.Publish? {
      IntegerEncoded(|PubSub.Deliveries(g.registry, item.command.channel, item.command.message)|);
    } else if !item.command.BgRewriteAof? && !item.command.BgSave? {
      CommandEncoded(g.store, now, item.command);
    }
  }

  lemma {:induction false} IntegerEncoded(n: int)
    ensures Encode(SentInteger(n)) == Replies.Integer(n)
  {
  }

  ghost predicate SingleReplies(items: seq<Item>) {
    forall i :: 0 <= i < |items| ==> SingleReply(items[i].command)
  }

  lemma {:induction false} QueueEncoded(g: Engine, now: int, queue: seq<Item>)
    requires SingleReplies(queue)
    ensures var replies, sent := ExecuteQueue(g, now, queue).1, SentQueue(g, now, queue);
            replies.Some? ==> |replies.value| == |sent|
                              && forall i :: 0 <= i < |sent| ==> replies.value[i] == Encode(sent[i])
  {
    hide ExecuteItem, SentItem, Encode;
    if queue != [] {
      var n := |queue| - 1;
      QueueEncoded(g, now, queue[..n]);
      ItemEncoded(ExecuteQueue(g, now, queue[..n]).0, now, queue[n]);
    }
  }

  lemma {:induction false} ExecTextEncoded(g: Engine, now: int, queue: seq<Item>)
    requires SingleReplies(queue) && ExecuteQueue(g, now, queue).1.Some?
    ensures Replies.RawArrayText(ExecuteQueue(g, now, queue).1.value) == Encode(SentExec(SentQueue(g, now, queue)))
  {
    hide ExecuteQueue, SentQueue, IntText, Replies.Concat;
    QueueEncoded(g, now, queue);
    var texts, sent := ExecuteQueue(g, now, queue).1.value, SentQueue(g, now, queue);
    assert texts == seq(|sent|, i requires 0 <= i < |sent| => Encode(sent[i]));
  }

  lemma {:induction false} HandledEncoded(h: Handler, conn: string, now: int, text: string)
    requires Parse(text).Parsed? && SingleReply(Parse(text).command)
    requires conn in h.transactions ==> SingleReplies(h.transactions[conn])
    ensures WireText(HandleLine(h, conn, now, text).1)
         == Encode(SentHandled(h, conn, now, text, Parse(text).command))
  {
    hide Parse, ExecuteQueue, ExecuteItem, SentItem, Encode, Replies.Error, Replies.Ok, Replies.RawArrayText;
    ErrorsEncoded();
    var c := Parse(text).command;
    match c
    case Exec =>
      if conn in h.transactions && ExecuteQueue(h.engine, now, h.transactions[conn]).1.Some? {
        ExecTextEncoded(h.engine, now, h.transactions[conn]);
      }
    case Multi =>
    case Discard =>
    case _ => ItemEncoded(h.engine, now, Item(conn, text, c));
  }

  lemma {:induction false} LineEncoded(p: Policy, g: Guarded, conn: string, now: int, text: string)
    requires Parse(text).Parsed? ==> SingleReply(Parse(text).command)
    requires conn in g.handler.transactions ==> SingleReplies(g.handler.transactions[conn])
    ensures WireText(HandleGuarded(p, g, conn, now, text).1) == Encode(SentLine(p, g, conn, now, text))
  {
    hide Parse, HandleLine, SentHandled, Encode, Replies.Error, Replies.Ok, NameFor, Restricted;
    ErrorsEncoded();
    if Parse(text).Parsed? {
      HandledEncoded(g.handler, conn, now, text);
    }
  }

  // ----- No payload holds a CRLF -----

  ghost predicate TokenOutcome(o: Outcome) {
    match o
    case Text(t) => t.Some? ==> IsToken(t.value)
    case Items(items) => AllTokens(items)
    case _ => true
  }

  lemma {:induction false} FlatTokens(fields: seq<string>, at: map<string, string>)
    requires forall f :: f in at ==> IsToken(f) && IsToken(at[f])
    ensures AllTokens(Flat(fields, at))
  {
    hide IsToken;
    if fields != [] {
      FlatTokens(fields[1..], at);
    }
  }

  lemma {:induction false} MeaningTokens(act: Act, now: int, v: Option<Value>, d: Option<int>)
    requires v.Some? ==> TokenValue(v.value)
    ensures TokenOutcome(Meaning(act, now, v, d).outcome)
  {
    hide IsToken, PutAll, RemoveAll, Flat, Reverse;
    if v.Some? && v.value.Hash? {
      FlatTokens(v.value.fields.keys, v.value.fields.at);
    }
  }

  lemma {:induction false} StepTokens(s: State, now: int, op: Op)
    requires s.Valid() && forall k :: s.Has(k) ==> IsToken(k) && TokenValue(s.values.at[k])
    ensures TokenOutcome(Step(s, now, op).1)
  {
    hide State.Valid, IsToken, TokenValue, Meaning, Commit, Purge, Matching, Glob;
    match op
    case OnKey(k, act) =>
      var g := Gate(s, now, k);
      GateKept(s, now, k);
      MeaningTokens(act, now, g.Lookup(k), g.Deadline(k));
    case Keys(pattern) =>
      PurgeListed(s, now);
      PurgeKept(s, now);
      var keys := Purge(s, now, s.values.keys).values.keys;
      forall i | 0 <= i < |Matching(pattern, keys)| ensures IsToken(Matching(pattern, keys)[i]) {
        assert Matching(pattern, keys)[i] in keys;
      }
    case Sweep(_) =>
  }

  lemma {:induction false} GateKept(s: State, now: int, k: string)
    ensures forall x :: Gate(s, now, k).Has(x) ==> s.Has(x) && Gate(s, now, k).values.at[x] == s.values.at[x]
  {
  }

  lemma {:induction false} PurgeKept(s: State, now: int)
    requires s.Valid()
    ensures forall k :: Purge(s, now, s.values.keys).Has(k) ==> s.Has(k)
  {
    hide State.Valid, Keep, Purge;
    StoreRelations.PurgeRestricts(s, now, s.values.keys);
  }

  lemma {:induction false} PlainNoCrlf(s: string)
    requires '\r' !in s
    ensures NoCrlf(s)
  {
    DigitsNoCrlf(s);
  }

  lemma {:induction false} TokenNoCrlf(t: string)
    requires IsToken(t)
    ensures NoCrlf(t)
  {
    TokenPlain(t);
    PlainNoCrlf(t);
  }

  lemma {:induction false} OutcomeWhole(o: Outcome)
    requires TokenOutcome(o)
    ensures Whole(SentOutcome(o))
  {
    hide NoCrlf, IsToken;
    match o
    case Text(t) => if t.Some? { TokenNoCrlf(t.value); }
    case Items(items) =>
      forall i | 0 <= i < |items| ensures NoCrlf(items[i]) { TokenNoCrlf(items[i]); }
    case Done => PlainNoCrlf("OK");
    case _ =>
  }

  lemma {:induction false} StepWhole(s: State, now: int, op: Op)
    requires Healthy(s, now)
    ensures Whole(SentOutcome(Step(s, now, op).1))
  {
    hide State.Valid, IsToken, TokenValue, Step, SentOutcome;
    StepTokens(s, now, op);
    OutcomeWhole(Step(s, now, op).1);
  }

  lemma {:induction false} TypeStep(s: State, now: int, k: string)
    requires Healthy(s, now)
    ensures Healthy(Step(s, now, OnKey(k, TypeOf)).0, now)
  {
    hide State.Valid, Storable, Conservation.NoneEmpty, Step;
    StepValid(s, now, OnKey(k, TypeOf));
    Conservation.StepNonempty(s, now, OnKey(k, TypeOf));
    TypeStorable(s, now, k);
  }

  lemma {:induction false} TypeStorable(s: State, now: int, k: string)
    requires s.Valid() && Storable(s, now)
    ensures Storable(Step(s, now, OnKey(k, TypeOf)).0, now)
  {
    hide State.Valid, Gate, Keep, IsToken, TokenValue;
    StoreRelations.GateRestricts(s, now, k);
    RestrictStorable(Gate(s, now, k), s, now);
  }

  lemma {:induction false} ErrorsWhole()
    ensures Whole(SentError("unhandled command")) && Whole(SentOk("OK")) && Whole(SentOk("QUEUED")) && Whole(INTERNAL)
  {
    hide Whole;
    CommonWhole();
    InternalWhole();
  }

  lemma {:induction false} CommonWhole()
    ensures Whole(SentError("unhandled command"))
    ensures Whole(SentOk("OK"))
    ensures Whole(SentOk("QUEUED"))
  {
    hide NoCrlf;
    PlainNoCrlf("unhandled command");
    PlainNoCrlf("OK");
    PlainNoCrlf("QUEUED");
  }

  lemma {:induction false} InternalWhole()
    ensures Whole(INTERNAL)
  {
    hide NoCrlf;
    PlainNoCrlf("internal server error");
  }

  lemma {:induction false} NestedWhole()
    ensures Whole(SentError("MULTI calls can not be nested"))
  {
    hide NoCrlf;
    PlainNoCrlf("MULTI calls can not be nested");
  }

  lemma {:induction false} UnopenedWhole()
    ensures Whole(SentError("EXEC without MULTI"))
    ensures Whole(SentError("DISCARD without MULTI"))
  {
    hide NoCrlf;
    PlainNoCrlf("EXEC without MULTI");
    PlainNoCrlf("DISCARD without MULTI");
  }

  lemma {:induction false} RefusalsWhole()
    ensures Whole(SentError("NOAUTH Authentication required.")) && Whole(SentError("invalid password"))
  {
    hide Whole;
    NoAuthWhole();
    InvalidWhole();
  }

  lemma {:induction false} NoAuthWhole()
    ensures Whole(SentError("NOAUTH Authentication required."))
  {
    hide NoCrlf;
    PlainNoCrlf("NOAUTH Authentication required.");
  }

  lemma {:induction false} InvalidWhole()
    ensures Whole(SentError("invalid password"))
  {
    hide NoCrlf;
    PlainNoCrlf("invalid password");
  }

  lemma {:induction false} DisabledWhole()
    ensures Whole(SentError("command disabled"))
  {
    hide NoCrlf;
    PlainNoCrlf("command disabled");
  }

  lemma {:induction false} RestrictedWhole()
    ensures Whole(SentError(RESTRICTED))
  {
    FirstPlain();
    SecondPlain();
    ThirdPlain();
    QuotedPlain("only (P)SUBSCRIBE / ", "(P)UNSUBSCRIBE / PING / ", "QUIT allowed in this context");
    PlainNoCrlf(RESTRICTED);
  }

  lemma {:induction false} FirstPlain()
    ensures '\r' !in "only (P)SUBSCRIBE / "
  {
  }

  lemma {:induction false} SecondPlain()
    ensures '\r' !in "(P)UNSUBSCRIBE / PING / "
  {
  }

  lemma {:induction false} ThirdPlain()
    ensures '\r' !in "QUIT allowed in this context"
  {
  }

  lemma {:induction false} ItemWhole(g: Engine, now: int, item: Item)
    requires Healthy(g.store, now)
    ensures Whole(SentItem(g, now, item))
  {
    hide Healthy, Step, SentOutcome, NoCrlf, PubSub.Deliveries;
    ErrorsWhole();
    match item.command
    case OnData(k, act) =>
      StepWhole(g.store, now, OnKey(k, act));
      TypeStep(g.store, now, k);
      StepWhole(Step(g.store, now, OnKey(k, TypeOf)).0, now, OnKey(k, Act.Get));
    case ListKeys(pattern) => StepWhole(g.store, now, Keys(pattern));
    case _ =>
  }

  /** The store stays healthy along a queue. */
  lemma {:induction false} QueueHealthy(g: Engine, conn: string, now: int, queue: seq<Item>)
    requires Healthy(g.store, now) && Queueable(conn, queue)
    ensures Healthy(ExecuteQueue(g, now, queue).0.store, now)
  {
    hide Healthy, ExecuteItem, Parse;
    if queue != [] {
      var n := |queue| - 1;
      QueueHealthy(g, conn, now, queue[..n]);
      StepHealthy(ExecuteQueue(g, now, queue[..n]).0, Command(now, queue[n]), now);
    }
  }

  lemma {:induction false} QueueWhole(g: Engine, conn: string, now: int, queue: seq<Item>)
    requires Healthy(g.store, now) && Queueable(conn, queue) && SingleReplies(queue)
    ensures WholeParts(SentQueue(g, now, queue))
  {
    hide Healthy, ExecuteQueue, SentItem, Parse, NoCrlf, Whole;
    if queue != [] {
      var n := |queue| - 1;
      QueueWhole(g, conn, now, queue[..n]);
      QueueHealthy(g, conn, now, queue[..n]);
      ItemWhole(ExecuteQueue(g, now, queue[..n]).0, now, queue[n]);
      ItemEncoded(ExecuteQueue(g, now, queue[..n]).0, now, queue[n]);
    }
  }

  lemma {:induction false} LineWhole(p: Policy, g: Guarded, conn: string, now: int, text: string)
    requires Healthy(g.handler.engine.store, now)
    requires conn in g.handler.transactions ==>
               Queueable(conn, g.handler.transactions[conn]) && SingleReplies(g.handler.transactions[conn])
    ensures Whole(SentLine(p, g, conn, now, text))
  {
    hide Healthy, Parse, ExecuteQueue, ExecuteItem, SentItem, SentQueue, Whole, NameFor, Restricted, Queueable;
    ErrorsWhole();
    NestedWhole();
    UnopenedWhole();
    RefusalsWhole();
    DisabledWhole();
    RestrictedWhole();
    if Parse(text).Malformed? {
      MessageWhole(text);
    } else {
      ItemWhole(g.handler.engine, now, Item(conn, text, Parse(text).command));
      if conn in g.handler.transactions {
        QueueWhole(g.handler.engine, conn, now, g.handler.transactions[conn]);
        ExecWhole(SentQueue(g.handler.engine, now, g.handler.transactions[conn]));
      }
    }
  }

  lemma {:induction false} MessageWhole(text: string)
    requires Parse(text).Malformed?
    ensures Whole(SentError(Parse(text).message))
  {
    hide Parse, NoCrlf;
    MessagePlain(text);
    PlainNoCrlf(Parse(text).message);
  }

  lemma {:induction false} ExecWhole(parts: seq<Sent>)
    requires WholeParts(parts)
    ensures Whole(SentExec(parts))
  {
  }

  // ----- Every trace -----

  /** A line that asks for no subscription. */
  predicate Single(text: string) {
    Parse(text).Parsed? ==> SingleReply(Parse(text).command)
  }

  predicate AllSingle(texts: seq<string>) {
    forall i :: 0 <= i < |texts| ==> Single(texts[i])
  }

  lemma {:induction false} AdmissibleSingle(p: Policy, g: Engine, trace: seq<Input>, conn: string)
    requires AllSingle(LinesOf(trace, conn))
    ensures AllSingle(LinesOf(Admissible(p, g, trace), conn))
  {
    if trace != [] {
      hide Single, Admitted;
      var before, last := trace[..|trace| - 1], trace[|trace| - 1];
      var inside := Admissible(p, g, before);
      assert before + [last] == trace;
      hide LinesOf;
      SingleBefore(before, last, conn);
      AdmissibleSingle(p, g, before, conn);
      SingleAfter(inside, last, conn);
    }
  }

  lemma {:induction false} SingleAfter(inside: seq<Input>, last: Input, conn: string)
    requires AllSingle(LinesOf(inside, conn)) && (last.Line? && last.conn == conn ==> Single(last.text))
    ensures AllSingle(LinesOf(inside + [last], conn)) && AllSingle(LinesOf(inside + [], conn))
  {
    hide Single;
    NothingAppended(inside);
    FrontOfAppend(inside, [last]);
  }

  lemma {:induction false} SingleBefore(before: seq<Input>, last: Input, conn: string)
    requires AllSingle(LinesOf(before + [last], conn))
    ensures AllSingle(LinesOf(before, conn)) && (last.Line? && last.conn == conn ==> Single(last.text))
  {
    hide Single;
    FrontOfAppend(before, [last]);
    NothingAppended(before);
    var lines := LinesOf(before, conn);
    assert LinesOf(before + [last], conn) == lines + if last.Line? && last.conn == conn then [last.text] else [];
    forall i | 0 <= i < |lines| ensures Single(lines[i]) {
      assert LinesOf(before + [last], conn)[i] == lines[i];
    }
    if last.Line? && last.conn == conn {
      assert LinesOf(before + [last], conn)[|lines|] == last.text;
    }
  }

  /** What a connection that asks for no subscription has queued. */
  lemma {:induction false} QueuedSingle(p: Policy, g: Engine, trace: seq<Input>, conn: string)
    requires AllSingle(LinesOf(trace, conn))
    ensures var h := GuardAll(p, Locked(g), trace).handler;
            conn in h.transactions ==>
              Queueable(conn, h.transactions[conn]) && SingleReplies(h.transactions[conn])
  {
    hide GuardAll, HandleAll, Admissible, Queue, LinesOf, Single, Parse;
    var inside := Admissible(p, g, trace);
    GuardedIsBare(p, g, trace);
    AdmissibleSingle(p, g, trace, conn);
    QueuesIsolated(g, inside, conn);
    QueueQueueable(conn, LinesOf(inside, conn));
    QueueHas(Single, conn, LinesOf(inside, conn));
    var h := GuardAll(p, Locked(g), trace).handler;
    if conn in h.transactions {
      ItemsSingle(conn, h.transactions[conn]);
    }
  }

  lemma {:induction false} ItemsSingle(conn: string, items: seq<Item>)
    requires Queueable(conn, items) && ItemsHave(Single, items)
    ensures SingleReplies(items)
  {
    hide Parse;
  }

  lemma {:induction false} GuardedHealthy(p: Policy, g: Engine, trace: seq<Input>, start: int, now: int)
    requires Healthy(g.store, start) && TimelyTrace(trace, start) && TraceClock(start, trace) <= now
    ensures Healthy(GuardAll(p, Locked(g), trace).handler.engine.store, now)
  {
    hide Healthy, GuardAll, HandleAll, Admissible, TimelyTrace, TraceClock;
    var inside := Admissible(p, g, trace);
    GuardedIsBare(p, g, trace);
    AdmissibleTimely(p, g, trace, start);
    TraceHealthy(g, inside, start);
    HealthyLater(HandleAll(Start(g), inside).engine.store, TraceClock(start, inside), now);
  }

  /** The answers to a connection's lines are the encodings of its replies, and no payload holds a CRLF. */
  lemma {:induction false} AnswersEncoded(p: Policy, g: Engine, trace: seq<Input>, conn: string, start: int)
    requires Healthy(g.store, start) && TimelyTrace(trace, start) && AllSingle(LinesOf(trace, conn))
    ensures var texts, sent := AnswersTo(p, g, trace, conn), SentTo(p, g, trace, conn);
            && |texts| == |sent| == |LinesOf(trace, conn)|
            && (forall i :: 0 <= i < |sent| ==> texts[i] == Encode(sent[i]) && Whole(sent[i]))
  {
    hide Healthy, GuardAll, HandleGuarded, SentLine, Encode, Whole, Single, WireText;
    if trace != [] {
      var before, last := trace[..|trace| - 1], trace[|trace| - 1];
      assert before + [last] == trace;
      SingleBefore(before, last, conn);
      AnswersEncoded(p, g, before, conn, start);
      if last.Line? && last.conn == conn {
        var u := GuardAll(p, Locked(g), before);
        QueuedSingle(p, g, before, conn);
        GuardedHealthy(p, g, before, start, last.now);
        SingleLine(last.text);
        LineEncoded(p, u, conn, last.now, last.text);
        LineWhole(p, u, conn, last.now, last.text);
      }
    }
  }

  lemma {:induction false} SingleLine(text: string)
    requires Single(text)
    ensures Parse(text).Parsed? ==> SingleReply(Parse(text).command)
  {
  }

  lemma {:induction false} ConcatEncodings(texts: seq<string>, sent: seq<Sent>)
    requires |texts| == |sent| && forall i :: 0 <= i < |sent| ==> texts[i] == Encode(sent[i])
    ensures Replies.Concat(texts) == EncodeAll(sent)
  {
    hide Encode;
    if texts != [] {
      ConcatEncodings(texts[1..], sent[1..]);
    }
  }

  /** What a client hears. Whatever the other connections send and whatever happens beside them, a client
      that asks for no subscription and feeds what is written for its lines to the reply parser, in any
      pieces, ends idle; it gets exactly one event for each of its lines if and only if no EXEC has wrapped
      an array with elements, and each event says what the reply meant if and only if moreover no value it
      was sent is "(nil)". */
  lemma {:induction false} ClientHears(p: Policy, g: Engine, trace: seq<Input>, conn: string, start: int,
                                       chunks: seq<string>)
    requires Healthy(g.store, start) && TimelyTrace(trace, start) && AllSingle(LinesOf(trace, conn))
    requires Replies.Concat(chunks) == Replies.Concat(AnswersTo(p, g, trace, conn))
    ensures var sent, (after, events) := SentTo(p, g, trace, conn), FeedAll(IDLE, chunks);
            && after == IDLE && events == HeardAll(sent)
            && (|events| == |LinesOf(trace, conn)| <==>
                  forall i :: 0 <= i < |sent| && sent[i].SentExec? ==> OneLined(sent[i].parts))
            && (events == ExpectedAll(sent) <==> forall i :: 0 <= i < |sent| ==> Clean(sent[i]))
  {
    hide Healthy, AnswersTo, SentTo, FeedAll, HeardAll, ExpectedAll, Whole, Clean, OneLined, Encode, LinesOf, AllSingle;
    var sent := SentTo(p, g, trace, conn);
    AnswersEncoded(p, g, trace, conn, start);
    ConcatEncodings(AnswersTo(p, g, trace, conn), sent);
    StreamHeard(sent, chunks);
    StreamRoundTrip(sent, chunks);
  }
}
