/** MULTI, EXEC and DISCARD over interleaved connections, with sweeps, snapshots and
    rewrites of the append-only file in between, and why they are serializable. */
module Transactions {
  import opened Options
  import opened Sequences
  import opened CommandParser
  import opened Execution
  import Replies

  datatype Handler = Handler(engine: Engine, transactions: map<string, seq<Item>>)

  /** What happens to the server: a line arrives from a connection, or something beside the commands. */
  datatype Input = Line(conn: string, now: int, text: string) | Background(tick: Tick)

  /** Run a queue in order. A command that throws ends it, and its replies are lost. */
  function ExecuteQueue(g: Engine, now: int, queue: seq<Item>): (Engine, Option<seq<string>>) {
    if queue == [] then (g, Some([]))
    else
      var n := |queue| - 1;
      var (g1, replies) := ExecuteQueue(g, now, queue[..n]);
      if replies.None? then (g1, None)
      else
        var (g2, answer) := ExecuteItem(g1, now, queue[n]);
        (g2, if answer.Thrown? then None else Some(replies.value + [answer.text]))
  }

  function ArrayAnswer(replies: Option<seq<string>>): Answer {
    if replies.None? then Thrown else Reply(Replies.RawArrayText(replies.value))
  }

  /** The handler's reaction to one line. */
  function HandleLine(h: Handler, conn: string, now: int, text: string): (Handler, Answer) {
    var parsed := Parse(text);
    if parsed.Malformed? then (h, Reply(Replies.Error(parsed.message)))
    else
      var open := conn in h.transactions;
      match parsed.command
      case Multi =>
        if open then (h, Reply(Replies.Error("MULTI calls can not be nested")))
        else (h.(transactions := h.transactions[conn := []]), Reply(Replies.Ok("OK")))
      case Exec =>
        if !open then (h, Reply(Replies.Error("EXEC without MULTI")))
        else
          var (g, replies) := ExecuteQueue(h.engine, now, h.transactions[conn]);
          (Handler(g, h.transactions - {conn}), ArrayAnswer(replies))
      case Discard =>
        if !open then (h, Reply(Replies.Error("DISCARD without MULTI")))
        else (h.(transactions := h.transactions - {conn}), Reply(Replies.Ok("OK")))
      case command =>
        var item := Item(conn, text, command);
        if open then
          (h.(transactions := h.transactions[conn := h.transactions[conn] + [item]]), Reply(Replies.Ok("QUEUED")))
        else
          var (g, answer) := ExecuteItem(h.engine, now, item);
          (h.(engine := g), answer)
  }

  function Handle(h: Handler, i: Input): Handler {
    match i
    case Line(conn, now, text) => HandleLine(h, conn, now, text).0
    case Background(tick) => h.(engine := Ticked(h.engine, tick))
  }

  function HandleAll(h: Handler, trace: seq<Input>): Handler {
    if trace == [] then h
    else Handle(HandleAll(h, trace[..|trace| - 1]), trace[|trace| - 1])
  }

  function Start(g: Engine): Handler { Handler(g, map[]) }

  // ----- A connection's transaction, read off its own lines alone -----

  function Advance(queue: Option<seq<Item>>, conn: string, text: string): Option<seq<Item>> {
    var parsed := Parse(text);
    if parsed.Malformed? then queue
    else
      match parsed.command
      case Multi => if queue.Some? then queue else Some([])
      case Exec => None
      case Discard => None
      case command => if queue.Some? then Some(queue.value + [Item(conn, text, command)]) else None
  }

  /** The commands queued after the lines `texts` of a connection; None outside a transaction. */
  function Queue(conn: string, texts: seq<string>): Option<seq<Item>> {
    if texts == [] then None else Advance(Queue(conn, texts[..|texts| - 1]), conn, texts[|texts| - 1])
  }

  /** The lines of one connection. */
  function LinesOf(trace: seq<Input>, conn: string): seq<string> {
    if trace == [] then []
    else
      var last := trace[|trace| - 1];
      LinesOf(trace[..|trace| - 1], conn) + if last.Line? && last.conn == conn then [last.text] else []
  }

  /** The commands a line executes, if it executes any: its own, or at EXEC the whole queue. */
  function JobOf(queue: Option<seq<Item>>, conn: string, text: string): Option<seq<Item>> {
    var parsed := Parse(text);
    if parsed.Malformed? then None
    else
      match parsed.command
      case Multi => None
      case Exec => queue
      case Discard => None
      case command => if queue.Some? then None else Some([Item(conn, text, command)])
  }

  // ----- Isolation -----

  /** What the handler holds for a connection. */
  function Pending(h: Handler, conn: string): Option<seq<Item>> {
    if conn in h.transactions then Some(h.transactions[conn]) else None
  }

  lemma {:induction false} LineAdvances(h: Handler, i: Input, conn: string)
    ensures Pending(Handle(h, i), conn)
            == if i.Line? && conn == i.conn then Advance(Pending(h, conn), conn, i.text) else Pending(h, conn)
  {
    hide Parse, ExecuteQueue, ExecuteItem, Ticked;
  }

  lemma {:induction false} QueueSnoc(conn: string, texts: seq<string>, text: string)
    ensures Queue(conn, texts + [text]) == Advance(Queue(conn, texts), conn, text)
  {
    hide Advance;
    FrontOfAppend(texts, [text]);
    NothingAppended(texts);
  }

  /** What the handler keeps per connection depends on that connection's lines and nothing else. */
  lemma {:induction false} QueuesIsolated(g: Engine, trace: seq<Input>, conn: string)
    ensures Queue(conn, LinesOf(trace, conn)) == Pending(HandleAll(Start(g), trace), conn)
  {
    hide Handle, Advance;
    if trace != [] {
      hide Queue, Pending;
      var before, last := trace[..|trace| - 1], trace[|trace| - 1];
      QueuesIsolated(g, before, conn);
      LineAdvances(HandleAll(Start(g), before), last, conn);
      if last.Line? && last.conn == conn {
        QueueSnoc(conn, LinesOf(before, conn), last.text);
      } else {
        NothingAppended(LinesOf(before, conn));
      }
    }
  }

  // ----- The serial schedule -----

  /** One job per executing line, in trace order, and what happens beside the commands in between. */
  datatype Job = Run(conn: string, now: int, items: seq<Item>, exec: bool) | Interlude(tick: Tick)

  predicate IsExec(text: string) {
    Parse(text) == Parsed(Exec)
  }

  /** The job of one input, given the transaction of its connection. */
  function JobsOf(queue: Option<seq<Item>>, i: Input): seq<Job> {
    match i
    case Line(conn, now, text) =>
      var items := JobOf(queue, conn, text);
      if items.Some? then [Run(conn, now, items.value, IsExec(text))] else []
    case Background(tick) => [Interlude(tick)]
  }

  /** The transaction that an input meets, read off the earlier lines of its connection. */
  function Met(before: seq<Input>, i: Input): Option<seq<Item>> {
    if i.Line? then Queue(i.conn, LinesOf(before, i.conn)) else None
  }

  function Jobs(trace: seq<Input>): seq<Job> {
    if trace == [] then []
    else
      var before, last := trace[..|trace| - 1], trace[|trace| - 1];
      Jobs(before) + JobsOf(Met(before, last), last)
  }

  function RunJob(g: Engine, job: Job): Engine {
    match job
    case Run(_, now, items, _) => ExecuteQueue(g, now, items).0
    case Interlude(tick) => Ticked(g, tick)
  }

  /** Jobs run one after the other, each without interruption. */
  function RunJobs(g: Engine, jobs: seq<Job>): Engine {
    if jobs == [] then g else RunJob(RunJobs(g, jobs[..|jobs| - 1]), jobs[|jobs| - 1])
  }

  /** What a job answers; what happens beside the commands answers nobody. */
  function JobAnswers(g: Engine, job: Job): seq<Answer> {
    match job
    case Run(_, now, items, exec) =>
      var replies := ExecuteQueue(g, now, items).1;
      [if exec || replies.None? then ArrayAnswer(replies) else Reply(Replies.Concat(replies.value))]
    case Interlude(_) => []
  }

  function AllAnswers(g: Engine, jobs: seq<Job>): seq<Answer> {
    if jobs == [] then []
    else
      var n := |jobs| - 1;
      AllAnswers(g, jobs[..n]) + JobAnswers(RunJobs(g, jobs[..n]), jobs[n])
  }

  /** The handler's answer to an input that executes something. */
  function Executing(h: Handler, i: Input): seq<Answer> {
    if i.Line? && JobOf(Pending(h, i.conn), i.conn, i.text).Some? then [HandleLine(h, i.conn, i.now, i.text).1] else []
  }

  /** The answers to the lines of a trace that executed something. */
  function Executions(h: Handler, trace: seq<Input>): seq<Answer> {
    if trace == [] then []
    else
      var before, last := trace[..|trace| - 1], trace[|trace| - 1];
      Executions(h, before) + Executing(HandleAll(h, before), last)
  }

  lemma {:induction false} SingleQueue(g: Engine, now: int, item: Item)
    ensures ExecuteQueue(g, now, [item]).0 == ExecuteItem(g, now, item).0
    ensures var replies := ExecuteQueue(g, now, [item]).1;
            ExecuteItem(g, now, item).1 == if replies.None? then Thrown else Reply(Replies.Concat(replies.value))
  {
    hide ExecuteItem;
    assert [item][..0] == [];
    var answer := ExecuteItem(g, now, item).1;
    if answer.Reply? {
      assert Replies.Concat([answer.text]) == answer.text + Replies.Concat([]);
    }
  }

  /** An input changes the engine by its job, run on the spot and undivided, or not at all. */
  lemma {:induction false} InputRunsJob(h: Handler, i: Input, queue: Option<seq<Item>>)
    requires i.Line? ==> queue == Pending(h, i.conn)
    ensures var jobs := JobsOf(queue, i);
            && |jobs| <= 1
            && Handle(h, i).engine == (if jobs == [] then h.engine else RunJob(h.engine, jobs[0]))
            && Executing(h, i) == (if jobs == [] then [] else JobAnswers(h.engine, jobs[0]))
  {
    hide Parse, ExecuteItem, Ticked;
    if i.Line? {
      var parsed := Parse(i.text);
      if parsed.Parsed? && queue.None? {
        SingleQueue(h.engine, i.now, Item(i.conn, i.text, parsed.command));
      }
    }
  }

  /** Serializability: whatever the interleaving, store, file, pending rewrite and the answers to the
      executing lines are those of the serial run of the jobs, each transaction at its EXEC. */
  lemma {:induction false} Serializable(g: Engine, trace: seq<Input>)
    ensures HandleAll(Start(g), trace).engine == RunJobs(g, Jobs(trace))
    ensures Executions(Start(g), trace) == AllAnswers(g, Jobs(trace))
  {
    hide Handle, JobsOf, LinesOf, Queue, JobAnswers, RunJobs, AllAnswers, Executing, RunJob, Pending;
    if trace != [] {
      var before, last := trace[..|trace| - 1], trace[|trace| - 1];
      Serializable(g, before);
      if last.Line? { QueuesIsolated(g, before, last.conn); }
      InputRunsJob(HandleAll(Start(g), before), last, Met(before, last));
      JobsSnoc(g, Jobs(before), JobsOf(Met(before, last), last));
    } else {
      NoJobs(g);
    }
  }

  lemma {:induction false} NoJobs(g: Engine)
    ensures RunJobs(g, []) == g && AllAnswers(g, []) == []
  {
  }

  lemma {:induction false} JobsSnoc(g: Engine, jobs: seq<Job>, more: seq<Job>)
    requires |more| <= 1
    ensures RunJobs(g, jobs + more) == if more == [] then RunJobs(g, jobs) else RunJob(RunJobs(g, jobs), more[0])
    ensures AllAnswers(g, jobs + more)
         == AllAnswers(g, jobs) + if more == [] then [] else JobAnswers(RunJobs(g, jobs), more[0])
  {
    hide RunJob, JobAnswers;
    NothingAppended(jobs);
    NothingAppended(AllAnswers(g, jobs));
    if more != [] {
      FrontOfAppend(jobs, more);
    }
  }

  // ----- The equivalent trace without interleaving -----

  /** The lines that run one job contiguously: MULTI, the queued lines, EXEC, all at the time of
      the EXEC; or the one line of an unqueued command. */
  function JobLines(job: Job): seq<Input> {
    match job
    case Run(conn, now, items, exec) =>
      if exec then [Line(conn, now, "MULTI")] + ItemLines(conn, now, items) + [Line(conn, now, "EXEC")]
      else ItemLines(conn, now, items)
    case Interlude(tick) => [Background(tick)]
  }

  function ItemLines(conn: string, now: int, items: seq<Item>): (r: seq<Input>)
    ensures |r| == |items|
    ensures forall i :: 0 <= i < |items| ==> r[i] == Line(conn, now, items[i].line)
  {
    seq(|items|, i requires 0 <= i < |items| => Line(conn, now, items[i].line))
  }

  /** Every transaction moved to its EXEC, everything that never executes left out. */
  function Contiguous(trace: seq<Input>): seq<Input> {
    if trace == [] then []
    else
      var before, last := trace[..|trace| - 1], trace[|trace| - 1];
      var jobs := JobsOf(Met(before, last), last);
      Contiguous(before) + if jobs == [] then [] else JobLines(jobs[0])
  }

  /** Items of one connection, with the command their line parses to, none of MULTI, EXEC and DISCARD. */
  ghost predicate Queueable(conn: string, items: seq<Item>) {
    forall i :: 0 <= i < |items| ==>
      && items[i].conn == conn
      && Parse(items[i].line) == Parsed(items[i].command)
      && !items[i].command.Multi? && !items[i].command.Exec? && !items[i].command.Discard?
  }

  lemma {:induction false} AdvanceQueueable(queue: Option<seq<Item>>, conn: string, text: string)
    requires queue.Some? ==> Queueable(conn, queue.value)
    ensures Advance(queue, conn, text).Some? ==> Queueable(conn, Advance(queue, conn, text).value)
  {
    hide Parse;
  }

  lemma {:induction false} QueueQueueable(conn: string, texts: seq<string>)
    ensures Queue(conn, texts).Some? ==> Queueable(conn, Queue(conn, texts).value)
  {
    if texts != [] {
      hide Parse;
      hide Queueable, Advance;
      QueueQueueable(conn, texts[..|texts| - 1]);
      AdvanceQueueable(Queue(conn, texts[..|texts| - 1]), conn, texts[|texts| - 1]);
    }
  }

  ghost predicate JobQueueable(job: Job) {
    job.Run? ==> Queueable(job.conn, job.items) && (!job.exec ==> |job.items| == 1)
  }

  lemma {:induction false} JobsQueueable(trace: seq<Input>)
    ensures forall i :: 0 <= i < |Jobs(trace)| ==> JobQueueable(Jobs(trace)[i])
  {
    hide JobsOf, JobQueueable, LinesOf, Queue;
    if trace != [] {
      var before, last := trace[..|trace| - 1], trace[|trace| - 1];
      JobsQueueable(before);
      MetQueueable(before, last);
    }
  }

  /** Whatever an input executes can have been queued. */
  lemma {:induction false} MetQueueable(before: seq<Input>, last: Input)
    ensures var jobs := JobsOf(Met(before, last), last);
            forall i :: 0 <= i < |jobs| ==> JobQueueable(jobs[i])
  {
    hide Parse, LinesOf, Queue;
    if last.Line? {
      QueueQueueable(last.conn, LinesOf(before, last.conn));
    }
  }

  // ----- What holds of every line holds of what is executed -----

  ghost predicate TextsHave(has: string -> bool, trace: seq<Input>) {
    forall i :: 0 <= i < |trace| && trace[i].Line? ==> has(trace[i].text)
  }

  ghost predicate ItemsHave(has: string -> bool, items: seq<Item>) {
    forall i :: 0 <= i < |items| ==> has(items[i].line)
  }

  lemma {:induction false} AdvanceHas(has: string -> bool, queue: Option<seq<Item>>, conn: string, text: string)
    requires has(text) && (queue.Some? ==> ItemsHave(has, queue.value))
    ensures Advance(queue, conn, text).Some? ==> ItemsHave(has, Advance(queue, conn, text).value)
    ensures JobOf(queue, conn, text).Some? ==> ItemsHave(has, JobOf(queue, conn, text).value)
  {
    hide Parse;
  }

  lemma {:induction false} QueueHas(has: string -> bool, conn: string, texts: seq<string>)
    requires forall i :: 0 <= i < |texts| ==> has(texts[i])
    ensures Queue(conn, texts).Some? ==> ItemsHave(has, Queue(conn, texts).value)
  {
    hide Advance, ItemsHave;
    if texts != [] {
      var n := |texts| - 1;
      QueueHas(has, conn, texts[..n]);
      AdvanceHas(has, Queue(conn, texts[..n]), conn, texts[n]);
    }
  }

  lemma {:induction false} LinesHave(has: string -> bool, trace: seq<Input>, conn: string)
    requires TextsHave(has, trace)
    ensures forall i :: 0 <= i < |LinesOf(trace, conn)| ==> has(LinesOf(trace, conn)[i])
  {
    if trace != [] {
      LinesHave(has, trace[..|trace| - 1], conn);
    }
  }

  ghost predicate JobHas(has: string -> bool, job: Job) {
    job.Run? ==> ItemsHave(has, job.items)
  }

  lemma {:induction false} JobsHave(has: string -> bool, trace: seq<Input>)
    requires TextsHave(has, trace)
    ensures forall i :: 0 <= i < |Jobs(trace)| ==> JobHas(has, Jobs(trace)[i])
  {
    if trace != [] {
      hide Queue, LinesOf, ItemsHave, JobOf;
      var before, last := trace[..|trace| - 1], trace[|trace| - 1];
      assert trace[|trace| - 1] == last;
      JobsHave(has, before);
      if last.Line? {
        LinesHave(has, before, last.conn);
        QueueHas(has, last.conn, LinesOf(before, last.conn));
        AdvanceHas(has, Met(before, last), last.conn, last.text);
      }
    }
  }

  lemma {:induction false} HandleAppend(h: Handler, a: seq<Input>, b: seq<Input>)
    ensures HandleAll(h, a + b) == HandleAll(HandleAll(h, a), b)
    ensures Executions(h, a + b) == Executions(h, a) + Executions(HandleAll(h, a), b)
    decreases b
  {
    hide Handle, Executing;
    if b == [] {
      NothingAppended(a);
      NothingAppended(Executions(h, a));
    } else {
      var n := |b| - 1;
      HandleAppend(h, a, b[..n]);
      FrontOfAppend(a, b);
      Associative(Executions(h, a), Executions(HandleAll(h, a), b[..n]), Executing(HandleAll(h, a + b[..n]), b[n]));
    }
  }

  lemma {:induction false} OneInput(h: Handler, i: Input)
    ensures HandleAll(h, [i]) == Handle(h, i) && Executions(h, [i]) == Executing(h, i)
  {
    hide Handle, Executing;
    assert [i][..0] == [];
    NothingAppended(Executing(h, i));
  }

  /** The handler with a connection's queue replaced. */
  function Queued(h: Handler, conn: string, queue: seq<Item>): Handler {
    h.(transactions := h.transactions[conn := queue])
  }

  /** Lines inside a transaction only queue. */
  lemma {:induction false} QueueLines(h: Handler, conn: string, now: int, queue: seq<Item>, items: seq<Item>)
    requires conn in h.transactions && h.transactions[conn] == queue && Queueable(conn, items)
    ensures HandleAll(h, ItemLines(conn, now, items)) == Queued(h, conn, queue + items)
    ensures Executions(h, ItemLines(conn, now, items)) == []
    decreases items
  {
    hide Parse, Handle, Executing;
    if items == [] {
      NothingAppended(queue);
      assert h.transactions[conn := queue] == h.transactions;
    } else {
      var first, last := items[..|items| - 1], items[|items| - 1];
      ItemLinesSnoc(conn, now, first, last);
      assert Queueable(conn, first) && Queueable(conn, [last]);
      hide HandleAll, Executions, Queueable, ItemLines, Queued;
      assert first + [last] == items;
      QueueLines(h, conn, now, queue, first);
      QueueMore(h, conn, ItemLines(conn, now, first), queue + first, now, last);
      assert queue + first + [last] == queue + items;
    }
  }

  lemma {:induction false} ItemLinesSnoc(conn: string, now: int, first: seq<Item>, last: Item)
    ensures ItemLines(conn, now, first + [last]) == ItemLines(conn, now, first) + [Line(conn, now, last.line)]
  {
  }

  lemma {:induction false} QueueMore(h: Handler, conn: string, lines: seq<Input>, queue: seq<Item>,
                                     now: int, item: Item)
    requires Queueable(conn, [item])
    requires HandleAll(h, lines) == Queued(h, conn, queue) && Executions(h, lines) == []
    ensures HandleAll(h, lines + [Line(conn, now, item.line)]) == Queued(h, conn, queue + [item])
    ensures Executions(h, lines + [Line(conn, now, item.line)]) == []
  {
    hide Handle, Executing, HandleAll, Executions, Queueable;
    var l := Line(conn, now, item.line);
    HandleAppend(h, lines, [l]);
    OneInput(Queued(h, conn, queue), l);
    QueueLine(Queued(h, conn, queue), conn, now, item);
    assert h.transactions[conn := queue][conn := queue + [item]] == h.transactions[conn := queue + [item]];
  }

  /** One line inside a transaction. */
  lemma {:induction false} QueueLine(h: Handler, conn: string, now: int, item: Item)
    requires conn in h.transactions && Queueable(conn, [item])
    ensures var l := Line(conn, now, item.line);
            Handle(h, l) == Queued(h, conn, h.transactions[conn] + [item]) && Executing(h, l) == []
  {
    hide Parse, ExecuteQueue, ExecuteItem;
    assert [item][0] == item;
  }

  /** The control lines, inside a transaction and outside; a nested MULTI keeps the queue. */
  lemma {:induction false} ControlLines(h: Handler, conn: string, now: int)
    ensures Handle(h, Line(conn, now, "MULTI")) == if conn in h.transactions then h else Queued(h, conn, [])
    ensures Executing(h, Line(conn, now, "MULTI")) == []
    ensures conn in h.transactions ==>
              Handle(h, Line(conn, now, "DISCARD")) == h.(transactions := h.transactions - {conn})
    ensures conn in h.transactions ==>
              Handle(h, Line(conn, now, "EXEC"))
              == Handler(ExecuteQueue(h.engine, now, h.transactions[conn]).0, h.transactions - {conn})
    ensures conn in h.transactions ==>
              Executing(h, Line(conn, now, "EXEC"))
              == [ArrayAnswer(ExecuteQueue(h.engine, now, h.transactions[conn]).1)]
  {
    hide Parse, ExecuteQueue, ExecuteItem;
    TransactionWords();
  }

  /** And what they are answered, as is a line that is queued. */
  lemma {:induction false} ControlAnswers(h: Handler, conn: string, now: int, item: Item)
    requires Queueable(conn, [item])
    ensures var open := conn in h.transactions;
            && HandleLine(h, conn, now, "MULTI").1
               == Reply(if open then "-ERR MULTI calls can not be nested\r\n" else "+OK\r\n")
            && HandleLine(h, conn, now, "DISCARD").1
               == Reply(if open then "+OK\r\n" else "-ERR DISCARD without MULTI\r\n")
            && (!open ==> HandleLine(h, conn, now, "EXEC") == (h, Reply("-ERR EXEC without MULTI\r\n")))
            && (!open ==> HandleLine(h, conn, now, "DISCARD").0 == h)
            && (open ==> HandleLine(h, conn, now, item.line).1 == Reply("+QUEUED\r\n"))
            && (!open ==> HandleLine(h, conn, now, item.line).1 == ExecuteItem(h.engine, now, item).1)
  {
    TransactionWords();
    hide Parse, ExecuteQueue, ExecuteItem;
    assert [item][0] == item;
    RepliesSpelled();
    hide Replies.Error, Replies.Ok;
  }

  lemma {:induction false} RepliesSpelled()
    ensures Replies.Ok("OK") == "+OK\r\n" && Replies.Ok("QUEUED") == "+QUEUED\r\n"
    ensures Replies.Error("MULTI calls can not be nested") == "-ERR MULTI calls can not be nested\r\n"
    ensures Replies.Error("EXEC without MULTI") == "-ERR EXEC without MULTI\r\n"
    ensures Replies.Error("DISCARD without MULTI") == "-ERR DISCARD without MULTI\r\n"
  {
    hide Replies.Ok, Replies.Error;
    OksSpelled();
    NestedSpelled();
    ExecSpelled();
    DiscardSpelled();
  }

  lemma {:induction false} OksSpelled()
    ensures Replies.Ok("OK") == "+OK\r\n" && Replies.Ok("QUEUED") == "+QUEUED\r\n"
  {
  }

  lemma {:induction false} NestedSpelled()
    ensures Replies.Error("MULTI calls can not be nested") == "-ERR MULTI calls can not be nested\r\n"
  {
  }

  lemma {:induction false} ExecSpelled()
    ensures Replies.Error("EXEC without MULTI") == "-ERR EXEC without MULTI\r\n"
  {
  }

  lemma {:induction false} DiscardSpelled()
    ensures Replies.Error("DISCARD without MULTI") == "-ERR DISCARD without MULTI\r\n"
  {
  }

  /** The contiguous lines of a job run the job, answer alike and leave no transaction open. */
  lemma {:induction false} JobLinesRun(g: Engine, job: Job)
    requires JobQueueable(job)
    ensures HandleAll(Start(g), JobLines(job)) == Start(RunJob(g, job))
    ensures Executions(Start(g), JobLines(job)) == JobAnswers(g, job)
  {
    hide Parse, ExecuteQueue, ExecuteItem, Handle, HandleAll, Executions, Executing;
    var h := Start(g);
    match job
    case Run(conn, now, items, exec) =>
      if exec {
        TransactionLinesRun(g, conn, now, items);
      } else {
        assert JobLines(job) == [Line(conn, now, items[0].line)];
        assert items == [items[0]];
        OneInput(h, Line(conn, now, items[0].line));
        SingleQueue(g, now, items[0]);
        PlainLine(g, conn, now, items[0]);
      }
    case Interlude(tick) =>
      OneInput(h, Background(tick));
      BackgroundAlone(h, tick);
  }

  lemma {:induction false} BackgroundAlone(h: Handler, tick: Tick)
    ensures Handle(h, Background(tick)) == h.(engine := Ticked(h.engine, tick))
    ensures Executing(h, Background(tick)) == []
  {
    hide Parse, ExecuteQueue, ExecuteItem, Ticked;
  }

  lemma {:induction false} PlainLine(g: Engine, conn: string, now: int, item: Item)
    requires Queueable(conn, [item])
    ensures var l := Line(conn, now, item.line);
            && Handle(Start(g), l) == Start(ExecuteItem(g, now, item).0)
            && Executing(Start(g), l) == [ExecuteItem(g, now, item).1]
  {
    hide Parse, ExecuteQueue, ExecuteItem;
    assert [item][0] == item;
  }

  lemma {:induction false} TransactionLinesRun(g: Engine, conn: string, now: int, items: seq<Item>)
    requires Queueable(conn, items)
    ensures var lines := [Line(conn, now, "MULTI")] + ItemLines(conn, now, items) + [Line(conn, now, "EXEC")];
            && HandleAll(Start(g), lines) == Start(ExecuteQueue(g, now, items).0)
            && Executions(Start(g), lines) == [ArrayAnswer(ExecuteQueue(g, now, items).1)]
  {
    hide Parse, ExecuteQueue, Handle, HandleAll, Executions, Executing, Queueable, ItemLines;
    var h, multi, exec := Start(g), Line(conn, now, "MULTI"), Line(conn, now, "EXEC");
    var lines := ItemLines(conn, now, items);
    var begun := Queued(h, conn, []);
    ControlLines(h, conn, now);
    OneInput(h, multi);
    QueueLines(begun, conn, now, [], items);
    NothingAppended(items);
    HandleAppend(h, [multi], lines);
    var full := Queued(begun, conn, items);
    ControlLines(full, conn, now);
    OneInput(full, exec);
    HandleAppend(h, [multi] + lines, [exec]);
    assert full.transactions[conn] == items;
    assert full.transactions - {conn} == map[];
  }

  /** The same handler, fed the contiguous trace, ends with the same store, file and pending rewrite,
      and answers the executing lines alike. */
  lemma {:induction false} ContiguousEquivalent(g: Engine, trace: seq<Input>)
    ensures HandleAll(Start(g), Contiguous(trace)) == Start(HandleAll(Start(g), trace).engine)
    ensures Executions(Start(g), Contiguous(trace)) == Executions(Start(g), trace)
  {
    hide Parse, ExecuteQueue, Handle, Executing, JobsOf, Met, JobLines, JobQueueable, RunJob, JobAnswers, LinesOf;
    hide Pending;
    if trace != [] {
      var before, last := trace[..|trace| - 1], trace[|trace| - 1];
      var queue := Met(before, last);
      var jobs := JobsOf(queue, last);
      MetQueueable(before, last);
      ContiguousEquivalent(g, before);
      MetPending(g, before, last);
      var h := HandleAll(Start(g), before);
      InputRunsJob(h, last, queue);
      if jobs != [] {
        HandleAppend(Start(g), Contiguous(before), JobLines(jobs[0]));
        JobLinesRun(h.engine, jobs[0]);
      } else {
        NothingAppended(Contiguous(before));
        NothingAppended(Executions(Start(g), before));
      }
    }
  }

  lemma {:induction false} MetPending(g: Engine, before: seq<Input>, last: Input)
    ensures last.Line? ==> Met(before, last) == Pending(HandleAll(Start(g), before), last.conn)
  {
    hide Queue, LinesOf, Pending;
    if last.Line? {
      QueuesIsolated(g, before, last.conn);
    }
  }

  // ----- Discarded transactions -----

  /** The trace without the lines of one connection. */
  function Others(trace: seq<Input>, conn: string): seq<Input> {
    if trace == [] then []
    else
      var last := trace[|trace| - 1];
      Others(trace[..|trace| - 1], conn) + if last.Line? && last.conn == conn then [] else [last]
  }

  /** The handler with what a connection has queued, if it is in a transaction. */
  function WithQueue(h: Handler, conn: string, queue: Option<seq<Item>>): Handler {
    if queue.Some? then Queued(h, conn, queue.value) else h
  }

  /** None of a connection's lines executes anything. */
  predicate Silent(conn: string, texts: seq<string>) {
    texts != [] ==>
      var n := |texts| - 1;
      Silent(conn, texts[..n]) && JobOf(Queue(conn, texts[..n]), conn, texts[n]) == None
  }

  /** A line that executes nothing changes its own connection's queue and nothing else. */
  lemma {:induction false} SilentLine(h: Handler, conn: string, queue: Option<seq<Item>>, now: int, text: string)
    requires conn !in h.transactions && JobOf(queue, conn, text) == None
    ensures var l := Line(conn, now, text);
            && Handle(WithQueue(h, conn, queue), l) == WithQueue(h, conn, Advance(queue, conn, text))
            && Executing(WithQueue(h, conn, queue), l) == []
  {
    hide Parse, ExecuteQueue, ExecuteItem;
    hide Replies.Error, Replies.Ok;
    if queue.Some? {
      var items := queue.value;
      assert h.transactions[conn := items] - {conn} == h.transactions;
      var more := Advance(queue, conn, text);
      if more.Some? {
        assert h.transactions[conn := items][conn := more.value] == h.transactions[conn := more.value];
      }
    }
  }

  /** Whatever else happens does not look at a connection's queue. */
  lemma {:induction false} OtherInput(h: Handler, conn: string, queue: Option<seq<Item>>, i: Input)
    requires conn !in h.transactions && (i.Line? ==> i.conn != conn)
    ensures Handle(WithQueue(h, conn, queue), i) == WithQueue(Handle(h, i), conn, queue)
    ensures Executing(WithQueue(h, conn, queue), i) == Executing(h, i)
    ensures conn !in Handle(h, i).transactions
  {
    hide Parse, ExecuteQueue, ExecuteItem, Ticked, Replies.Error, Replies.Ok, ArrayAnswer;
    if queue.Some? && i.Line? {
      var items := queue.value;
      assert h.transactions[conn := items] - {i.conn} == (h.transactions - {i.conn})[conn := items];
      var after := Handle(h, i).transactions;
      if i.conn in after {
        var more := after[i.conn];
        assert h.transactions[conn := items][i.conn := more] == h.transactions[i.conn := more][conn := items];
      }
    }
  }

  /** A connection whose lines execute nothing leaves, whatever else happens in between, no trace but
      its queue. */
  lemma {:induction false} SilentLeaves(h: Handler, trace: seq<Input>, conn: string)
    requires conn !in h.transactions && Silent(conn, LinesOf(trace, conn))
    ensures var u := HandleAll(h, Others(trace, conn));
            && conn !in u.transactions
            && HandleAll(h, trace) == WithQueue(u, conn, Queue(conn, LinesOf(trace, conn)))
            && Executions(h, trace) == Executions(h, Others(trace, conn))
  {
    hide Handle, Executing, WithQueue, JobOf, Advance;
    if trace == [] {
      NothingQueued(h, conn);
    } else {
      var before, last := trace[..|trace| - 1], trace[|trace| - 1];
      SilentBefore(trace, conn);
      SilentLeaves(h, before, conn);
      var u, queue := HandleAll(h, Others(before, conn)), Queue(conn, LinesOf(before, conn));
      if last.Line? && last.conn == conn {
        SilentLine(u, conn, queue, last.now, last.text);
        QueueSnoc(conn, LinesOf(before, conn), last.text);
        NothingAppended(Others(before, conn));
        NothingAppended(Executions(h, before));
      } else {
        OtherInput(u, conn, queue, last);
        NothingAppended(LinesOf(before, conn));
        HandleAppend(h, Others(before, conn), [last]);
        OneInput(u, last);
      }
    }
  }

  lemma {:induction false} NothingQueued(h: Handler, conn: string)
    ensures WithQueue(h, conn, Queue(conn, [])) == h
  {
  }

  lemma {:induction false} SilentBefore(trace: seq<Input>, conn: string)
    requires trace != [] && Silent(conn, LinesOf(trace, conn))
    ensures var before, last := trace[..|trace| - 1], trace[|trace| - 1];
            && Silent(conn, LinesOf(before, conn))
            && (last.Line? && last.conn == conn ==>
                  JobOf(Queue(conn, LinesOf(before, conn)), conn, last.text) == None)
  {
    hide Queue, JobOf;
    var before, last := trace[..|trace| - 1], trace[|trace| - 1];
    NothingAppended(LinesOf(before, conn));
    if last.Line? && last.conn == conn {
      FrontOfAppend(LinesOf(before, conn), [last.text]);
      NothingAppended(LinesOf(before, conn));
    }
  }

  /** A line that neither runs nor ends a transaction. */
  predicate Harbours(text: string) {
    Parse(text) != Parsed(Exec) && Parse(text) != Parsed(Discard)
  }

  lemma {:induction false} SilentQueue(conn: string, texts: seq<string>)
    requires forall i :: 0 <= i < |texts| ==> Harbours(texts[i])
    ensures Silent(conn, ["MULTI"] + texts) && Queue(conn, ["MULTI"] + texts).Some?
  {
    TransactionWords();
    hide Parse;
    if texts == [] {
      NothingAppended(["MULTI"]);
      assert ["MULTI"][..0] == [];
    } else {
      var front, last := texts[..|texts| - 1], texts[|texts| - 1];
      SilentQueue(conn, front);
      FrontOfAppend(["MULTI"], texts);
    }
  }

  /** A transaction that ends in DISCARD leaves no trace, whatever comes between its lines: without
      them the handler, its store and files, and all answers to executing lines are the same. A MULTI
      inside it does not end it, nor does a line that does not parse. */
  lemma {:induction false} DiscardLeavesNoTrace(h: Handler, trace: seq<Input>, conn: string, texts: seq<string>)
    requires conn !in h.transactions && LinesOf(trace, conn) == ["MULTI"] + texts + ["DISCARD"]
    requires forall i :: 0 <= i < |texts| ==> Harbours(texts[i])
    ensures HandleAll(h, trace) == HandleAll(h, Others(trace, conn))
    ensures Executions(h, trace) == Executions(h, Others(trace, conn))
  {
    TransactionWords();
    hide Parse, HandleAll, Executions, LinesOf, Others;
    SilentQueue(conn, texts);
    FrontOfAppend(["MULTI"] + texts, ["DISCARD"]);
    NothingAppended(["MULTI"] + texts);
    SilentLeaves(h, trace, conn);
  }
}
