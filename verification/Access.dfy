/** A server with a password, disabled commands and restricted subscribers is the server without them,
    fed only the lines that are let through. */
module Access {
  import opened Sequences
  import opened Text
  import opened StoreSpec
  import opened CommandParser
  import opened Execution
  import opened Guarding
  import opened Transactions
  import opened LogReplay
  import opened EngineRuns
  import opened AofRewrite
  import opened Recovery
  import Disk
  import PubSub
  import Services
  import Spelling
  import Replies

  // ----- The lines that are let through, read off the trace alone -----

  predicate LogsIn(p: Policy, i: Input, conn: string) {
    i.Line? && i.conn == conn && p.password.Some? && Parse(i.text) == Parsed(Auth(p.password.value))
  }

  /** Without a password everybody is known; with one, whoever has sent it. */
  predicate Known(p: Policy, trace: seq<Input>, conn: string) {
    p.password.None? || exists i :: 0 <= i < |trace| && LogsIn(p, trace[i], conn)
  }

  predicate Permitted(p: Policy, text: string) {
    Parse(text).Parsed? && NameFor(Parse(text).command) !in p.disabled
  }

  /** SUBSCRIBE and UNSUBSCRIBE, with any arguments. */
  predicate Subscribing(c: Command) { c.Subscribe? || c.Unsubscribe? }

  /** Whether an input is let through after `before`, with the engine as it then is: a connection that holds
      a channel may only change what it holds. */
  ghost predicate Admitted(p: Policy, before: seq<Input>, u: Engine, i: Input) {
    i.Line? ==>
      && Known(p, before, i.conn) && Permitted(p, i.text)
      && (Subscribing(Parse(i.text).command) || !exists ch :: u.registry.Holds(i.conn, ch))
  }

  /** The part of a trace that is let through. */
  ghost function Admissible(p: Policy, g: Engine, trace: seq<Input>): seq<Input> {
    if trace == [] then []
    else
      var before, last := trace[..|trace| - 1], trace[|trace| - 1];
      var inside := Admissible(p, g, before);
      inside + if Admitted(p, before, Inside(g, inside), last) then [last] else []
  }

  /** The engine after the lines let through. */
  function Inside(g: Engine, inside: seq<Input>): Engine {
    HandleAll(Start(g), inside).engine
  }

  lemma {:induction false} KnownSnoc(p: Policy, before: seq<Input>, last: Input, conn: string)
    ensures Known(p, before + [last], conn) <==> Known(p, before, conn) || LogsIn(p, last, conn)
  {
    hide LogsIn;
    var trace := before + [last];
    if p.password.Some? {
      if i :| 0 <= i < |before| && LogsIn(p, before[i], conn) { assert trace[i] == before[i]; }
      if LogsIn(p, last, conn) { assert trace[|before|] == last; }
    }
  }

  lemma {:induction false} GuardLogsIn(p: Policy, g: Guarded, i: Input, conn: string)
    ensures conn in Guard(p, g, i).authenticated <==> conn in g.authenticated || LogsIn(p, i, conn)
    ensures p.password.None? ==> Guard(p, g, i).authenticated == g.authenticated
  {
    hide Parse, Handle, HandleLine, NameFor, Replies.Error, Replies.Ok;
  }

  lemma {:induction false} NobodyKnown(p: Policy, conn: string)
    ensures Known(p, [], conn) <==> p.password.None?
  {
  }

  /** Exactly those connections count as authenticated that have sent the password. */
  lemma {:induction false} AuthenticatedExactly(p: Policy, g: Engine, trace: seq<Input>, conn: string)
    ensures (p.password.None? || conn in GuardAll(p, Locked(g), trace).authenticated) <==> Known(p, trace, conn)
    ensures p.password.None? ==> GuardAll(p, Locked(g), trace).authenticated == {}
  {
    hide Guard, Known, LogsIn;
    if trace == [] {
      NobodyKnown(p, conn);
    } else {
      var before, last := trace[..|trace| - 1], trace[|trace| - 1];
      AuthenticatedExactly(p, g, before, conn);
      assert before + [last] == trace;
      KnownSnoc(p, before, last, conn);
      GuardLogsIn(p, GuardAll(p, Locked(g), before), last, conn);
    }
  }

  /** The guarded server's store, file and transactions are those of the bare server on the lines let
      through. */
  lemma {:induction false} GuardedIsBare(p: Policy, g: Engine, trace: seq<Input>)
    ensures GuardAll(p, Locked(g), trace).handler == HandleAll(Start(g), Admissible(p, g, trace))
  {
    if trace != [] {
      hide Guard, Known, Handle, Admitted;
      var before, last := trace[..|trace| - 1], trace[|trace| - 1];
      GuardedIsBare(p, g, before);
      if last.Line? { AuthenticatedExactly(p, g, before, last.conn); }
      GuardStep(p, GuardAll(p, Locked(g), before), before, last);
      NothingAppended(Admissible(p, g, before));
      FrontOfAppend(Admissible(p, g, before), [last]);
    }
  }

  /** One input behind the guard. */
  lemma {:induction false} GuardStep(p: Policy, g: Guarded, before: seq<Input>, i: Input)
    requires i.Line? ==> ((p.password.None? || i.conn in g.authenticated) <==> Known(p, before, i.conn))
    ensures Guard(p, g, i).handler ==
            if Admitted(p, before, g.handler.engine, i) then Handle(g.handler, i) else g.handler
  {
    hide Parse, HandleLine, Known, NameFor, Replies.Error, Replies.Ok, PubSub.IsSubscribed, PubSub.Registry.Holds;
    if i.Line? { PubSub.SubscribedHolds(g.handler.engine.registry, i.conn); }
  }

  /** What a line is answered: a parse error before anything else; the password, or the want of it, before
      what the command may do; and a line let through as the bare server answers it. */
  lemma {:induction false} GuardedAnswers(p: Policy, g: Engine, trace: seq<Input>, conn: string, now: int, text: string)
    ensures var before := GuardAll(p, Locked(g), trace);
            var answer, parsed := HandleGuarded(p, before, conn, now, text).1, Parse(text);
            if parsed.Malformed? then answer == Reply(Replies.Error(parsed.message))
            else if !Known(p, trace, conn) then
              if LogsIn(p, Line(conn, now, text), conn) then answer == Reply(Replies.Ok("OK"))
              else if parsed.command.Auth? then answer == Reply("-ERR invalid password\r\n")
              else answer == Reply("-ERR NOAUTH Authentication required.\r\n")
            else if NameFor(parsed.command) in p.disabled then answer == Reply("-ERR command disabled\r\n")
            else if Admitted(p, trace, Inside(g, Admissible(p, g, trace)), Line(conn, now, text)) then
              answer == HandleLine(HandleAll(Start(g), Admissible(p, g, trace)), conn, now, text).1
            else
              answer == Reply(Replies.Error(
                "only (P)SUBSCRIBE / " + "(P)UNSUBSCRIBE / PING / " + "QUIT allowed in this context"))
  {
    hide Parse, HandleLine, Known, NameFor, GuardAll, HandleAll, Admissible, Replies.Error, Replies.Ok;
    hide PubSub.IsSubscribed, PubSub.Registry.Holds;
    GuardedIsBare(p, g, trace);
    RefusalsSpelled();
    AuthenticatedExactly(p, g, trace, conn);
    PubSub.SubscribedHolds(GuardAll(p, Locked(g), trace).handler.engine.registry, conn);
  }

  /** The texts of the refusals. */
  lemma {:induction false} RefusalsSpelled()
    ensures Replies.Error("NOAUTH Authentication required.") == "-ERR NOAUTH Authentication required.\r\n"
    ensures Replies.Error("invalid password") == "-ERR invalid password\r\n"
    ensures Replies.Error("command disabled") == "-ERR command disabled\r\n"
  {
    NoAuthSpelled();
    InvalidSpelled();
    DisabledSpelled();
    hide Replies.Error;
  }

  lemma {:induction false} NoAuthSpelled()
    ensures Replies.Error("NOAUTH Authentication required.") == "-ERR NOAUTH Authentication required.\r\n"
  {
  }

  lemma {:induction false} InvalidSpelled()
    ensures Replies.Error("invalid password") == "-ERR invalid password\r\n"
  {
  }

  lemma {:induction false} DisabledSpelled()
    ensures Replies.Error("command disabled") == "-ERR command disabled\r\n"
  {
  }

  /** What has been said about subscriptions by the lines let through, and by lost connections. */
  ghost function SaidInside(p: Policy, g: Engine, trace: seq<Input>): seq<PubSub.Event> {
    Services.Said(TraceEvents(g, Admissible(p, g, trace)))
  }

  /** Which lines are let through, over every trace: a permitted line of a known connection is, if and only
      if it is SUBSCRIBE or UNSUBSCRIBE, or the connection's last word on no channel is a subscription. */
  lemma {:induction false} AdmittedExactly(p: Policy, g: Engine, trace: seq<Input>, conn: string, now: int,
                                           text: string)
    requires g.registry == PubSub.NOBODY && Known(p, trace, conn) && Permitted(p, text)
    ensures Admitted(p, trace, Inside(g, Admissible(p, g, trace)), Line(conn, now, text)) <==>
              || Parse(text).command.Subscribe? || Parse(text).command.Unsubscribe?
              || !PubSub.WantsSome(SaidInside(p, g, trace), conn)
  {
    hide Parse, Known, Permitted, HandleAll, Admissible, Admitted, TraceEvents, Services.Said,
         PubSub.Wants, PubSub.WantsSome;
    hide PubSub.Registry.Holds, PubSub.Registry.Lists, PubSub.Registry.Tidy, PubSub.IsSubscribed;
    var inside := Admissible(p, g, trace);
    Services.TraceTwoWay(g, inside);
    var u, said := Inside(g, inside), SaidInside(p, g, trace);
    KnownPermitted(p, trace, u, conn, now, text);
    PubSub.SubscribedHolds(u.registry, conn);
    assert PubSub.IsSubscribed(u.registry, conn) <==> PubSub.WantsSome(said, conn);
  }

  lemma {:induction false} KnownPermitted(p: Policy, trace: seq<Input>, u: Engine, conn: string, now: int, text: string)
    requires Known(p, trace, conn) && Permitted(p, text)
    ensures Admitted(p, trace, u, Line(conn, now, text)) <==>
              Subscribing(Parse(text).command) || !exists ch :: u.registry.Holds(conn, ch)
  {
    hide Known, PubSub.Registry.Holds;
  }

  /** UNSUBSCRIBE without channels frees a connection: outside a transaction it is let through, and after it
      every permitted line of the connection is. */
  lemma {:induction false} UnsubscribeFrees(p: Policy, g: Engine, trace: seq<Input>, conn: string, now: int,
                                            later: int, text: string)
    requires g.registry == PubSub.NOBODY && Known(p, trace, conn)
    requires Permitted(p, "UNSUBSCRIBE") && Permitted(p, text)
    requires conn !in GuardAll(p, Locked(g), trace).handler.transactions
    ensures var after := trace + [Line(conn, now, "UNSUBSCRIBE")];
            && (!exists ch :: GuardAll(p, Locked(g), after).handler.engine.registry.Holds(conn, ch))
            && Admitted(p, after, Inside(g, Admissible(p, g, after)), Line(conn, later, text))
  {
    hide Parse, Known, Permitted, HandleAll, GuardAll, Admissible, LogsIn;
    hide PubSub.Registry.Holds, PubSub.Registry.Lists, PubSub.Registry.Tidy, PubSub.IsSubscribed, PubSub.Unsubscribe;
    var l := Line(conn, now, "UNSUBSCRIBE");
    var after := trace + [l];
    Spelling.UnsubscribeLine();
    KnownSnoc(p, trace, l, conn);
    GuardedIsBare(p, g, trace);
    GuardedIsBare(p, g, after);
    AdmissibleSnoc(p, g, trace, l);
    var inside := Admissible(p, g, trace);
    OneInput(HandleAll(Start(g), inside), l);
    HandleAppend(Start(g), inside, [l]);
    var h := HandleAll(Start(g), inside);
    Services.TraceTwoWay(g, inside);
    LineUnsubscribes(h, conn, now);
    PubSub.UnsubscribePairs(h.engine.registry, conn, []);
  }

  lemma {:induction false} AdmissibleSnoc(p: Policy, g: Engine, trace: seq<Input>, l: Input)
    requires Admitted(p, trace, Inside(g, Admissible(p, g, trace)), l)
    ensures Admissible(p, g, trace + [l]) == Admissible(p, g, trace) + [l]
  {
    hide Admitted, HandleAll;
    FrontOfAppend(trace, [l]);
    NothingAppended(trace);
  }

  lemma {:induction false} LineUnsubscribes(h: Handler, conn: string, now: int)
    requires conn !in h.transactions && Parse("UNSUBSCRIBE") == Parsed(Unsubscribe([]))
    ensures Handle(h, Line(conn, now, "UNSUBSCRIBE")).engine.registry
         == PubSub.Unsubscribe(h.engine.registry, conn, [])
  {
    hide Parse, ExecuteQueue, PubSub.Unsubscribe, PubSub.UnsubscribeAnswer;
  }

  /** The name by which a line's command may be disabled is the word the line carries, in capitals. */
  lemma {:induction false} PermittedWord(p: Policy, c: Command, line: string)
    requires Sayable(c) && Spelling.Spells(Tokens(line), c)
    ensures Permitted(p, line) <==> Print(c)[0] !in p.disabled
  {
    hide Parse, Sayable, Spelling.Spells, Tokens;
    Spelling.SpelledParses(c, line);
  }

  // ----- Disabled commands never run -----

  ghost predicate Enabled(p: Policy, items: seq<Item>) {
    forall i :: 0 <= i < |items| ==> NameFor(items[i].command) !in p.disabled
  }

  lemma {:induction false} AdmissiblePermitted(p: Policy, g: Engine, trace: seq<Input>)
    ensures TextsHave(text => Permitted(p, text), Admissible(p, g, trace))
  {
    if trace != [] {
      hide Permitted, Known, Restricted;
      AdmissiblePermitted(p, g, trace[..|trace| - 1]);
    }
  }

  /** No job of the guarded server, a queued transaction's least of all, holds a disabled command. */
  lemma {:induction false} DisabledNeverRuns(p: Policy, g: Engine, trace: seq<Input>)
    ensures var jobs := Jobs(Admissible(p, g, trace));
            forall i :: 0 <= i < |jobs| && jobs[i].Run? ==> Enabled(p, jobs[i].items)
  {
    hide TextsHave, Enabled, Admissible, JobHas, JobQueueable, Permitted;
    var permitted := text => Permitted(p, text);
    var jobs := Jobs(Admissible(p, g, trace));
    AdmissiblePermitted(p, g, trace);
    JobsHave(permitted, Admissible(p, g, trace));
    JobsQueueable(Admissible(p, g, trace));
    forall i | 0 <= i < |jobs| && jobs[i].Run? ensures Enabled(p, jobs[i].items) {
      JobEnabled(p, permitted, jobs[i]);
    }
  }

  lemma {:induction false} JobEnabled(p: Policy, permitted: string -> bool, job: Job)
    requires job.Run? && JobQueueable(job) && JobHas(permitted, job)
    requires forall text :: permitted(text) ==> Permitted(p, text)
    ensures Enabled(p, job.items)
  {
    hide Parse, NameFor;
  }

  // ----- Strangers leave no trace -----

  lemma {:induction false} OthersKnown(p: Policy, trace: seq<Input>, conn: string, other: string)
    requires other != conn
    ensures Known(p, Others(trace, conn), other) <==> Known(p, trace, other)
  {
    if trace != [] {
      hide Parse, Known;
      var before, last := trace[..|trace| - 1], trace[|trace| - 1];
      OthersKnown(p, before, conn, other);
      assert before + [last] == trace;
      KnownSnoc(p, before, last, other);
      if last.Line? && last.conn == conn {
        NothingAppended(Others(before, conn));
      } else {
        KnownSnoc(p, Others(before, conn), last, other);
      }
    }
  }

  lemma {:induction false} StrangerAdmits(p: Policy, g: Engine, trace: seq<Input>, conn: string)
    requires !Known(p, trace, conn)
    ensures Admissible(p, g, Others(trace, conn)) == Admissible(p, g, trace)
  {
    if trace != [] {
      hide Known, Permitted, LogsIn;
      var before, last := trace[..|trace| - 1], trace[|trace| - 1];
      assert before + [last] == trace;
      KnownSnoc(p, before, last, conn);
      StrangerAdmits(p, g, before, conn);
      if last.Line? && last.conn == conn {
        NothingAppended(Others(before, conn));
        NothingAppended(Admissible(p, g, before));
      } else {
        if last.Line? { OthersKnown(p, before, conn, last.conn); }
        FrontOfAppend(Others(before, conn), [last]);
        NothingAppended(Others(before, conn));
      }
    }
  }

  /** A connection that never sends the password leaves no trace in store, file or transactions. */
  lemma {:induction false} StrangersLeaveNoTrace(p: Policy, g: Engine, trace: seq<Input>, conn: string)
    requires !Known(p, trace, conn)
    ensures GuardAll(p, Locked(g), Others(trace, conn)).handler == GuardAll(p, Locked(g), trace).handler
  {
    hide GuardAll, HandleAll, Known, Admissible, Others;
    StrangerAdmits(p, g, trace, conn);
    GuardedIsBare(p, g, trace);
    GuardedIsBare(p, g, Others(trace, conn));
  }

  // ----- Crash recovery behind the guard -----

  lemma {:induction false} AdmissibleTimely(p: Policy, g: Engine, trace: seq<Input>, start: int)
    requires TimelyTrace(trace, start)
    ensures TimelyTrace(Admissible(p, g, trace), start)
    ensures TraceClock(start, Admissible(p, g, trace)) <= TraceClock(start, trace)
  {
    if trace != [] {
      hide Admitted, InputTime, HandleAll;
      var before, last := trace[..|trace| - 1], trace[|trace| - 1];
      AdmissibleTimely(p, g, before, start);
      var inside := Admissible(p, g, before);
      InputLater(last, TraceClock(start, inside), TraceClock(start, before));
      TimelyNext(inside, last, start);
      NothingAppended(inside);
    }
  }

  lemma {:induction false} InputLater(i: Input, a: int, b: int)
    requires a <= b <= InputTime(i, b)
    ensures a <= InputTime(i, a) <= InputTime(i, b)
  {
  }

  lemma {:induction false} TimelyNext(trace: seq<Input>, i: Input, start: int)
    requires TimelyTrace(trace, start)
    ensures TraceClock(start, trace + [i]) == InputTime(i, TraceClock(start, trace))
    ensures TraceClock(start, trace) <= InputTime(i, TraceClock(start, trace)) ==> TimelyTrace(trace + [i], start)
  {
    hide InputTime;
    FrontOfAppend(trace, [i]);
    NothingAppended(trace);
  }

  /** The recovery theorem holds of the guarded server too. */
  lemma {:induction false} GuardedRecovery(p: Policy, g: Engine, trace: seq<Input>, start: int, t: int)
    requires Current(g, t) && Healthy(g.store, start)
    requires TimelyTrace(trace, start) && SmoothRun(g, TraceEvents(g, Admissible(p, g, trace)))
    ensures var u := GuardAll(p, Locked(g), trace).handler.engine;
            SameData(u.store, Replay(Empty(g.store.capacity), t, u.writer.aof))
  {
    hide GuardAll, HandleAll, Healthy, Current, TraceEvents, SmoothRun, SameData, Replay, TimelyTrace, Admissible;
    var inside := Admissible(p, g, trace);
    GuardedIsBare(p, g, trace);
    AdmissibleTimely(p, g, trace, start);
    CrashRecovery(g, inside, start, t);
    assert inside[..|inside|] == inside;
  }

  lemma {:induction false} AdmissibleHave(has: string -> bool, p: Policy, g: Engine, trace: seq<Input>)
    requires TextsHave(has, trace)
    ensures TextsHave(has, Admissible(p, g, trace))
  {
    if trace != [] {
      hide Admitted, HandleAll;
      var before, last := trace[..|trace| - 1], trace[|trace| - 1];
      assert trace[|trace| - 1] == last;
      AdmissibleHave(has, p, g, before);
    }
  }

  /** And recovery from the text on disk. */
  lemma {:induction false} GuardedDiskRecovery(p: Policy, g: Engine, trace: seq<Input>, start: int, t: int)
    requires Current(g, t) && Healthy(g.store, start) && Disk.WritesOrdinary(g.writer)
    requires TimelyTrace(trace, start) && SmoothRun(g, TraceEvents(g, Admissible(p, g, trace)))
    requires TextsHave(Disk.OneLiner, trace)
    ensures var u := GuardAll(p, Locked(g), trace).handler.engine;
            SameData(u.store, Disk.Recover(Empty(g.store.capacity), t, Disk.FileText(u.writer.aof)))
  {
    hide GuardAll, HandleAll, Healthy, Current, TraceEvents, SmoothRun, SameData, TimelyTrace, Admissible;
    hide Disk.WritesOrdinary, Disk.Recover, Disk.FileText, TextsHave;
    var inside := Admissible(p, g, trace);
    GuardedIsBare(p, g, trace);
    AdmissibleTimely(p, g, trace, start);
    AdmissibleHave(Disk.OneLiner, p, g, trace);
    Disk.DiskRecovery(g, inside, start, t);
    assert inside[..|inside|] == inside;
  }
}
