/** The append-only file as text on disk, and recovery from it: reading lines, and handing each to a
    handler that has a store alone. */
module Disk {
  import opened Options
  import opened Sequences
  import opened Text
  import opened StoreSpec
  import opened StoreRelations
  import opened CommandParser
  import opened AofSteps
  import opened Printing
  import opened Dumping
  import opened Execution
  import opened Transactions
  import opened LogReplay
  import opened Compaction
  import opened EngineRuns
  import opened AofRewrite
  import opened Recovery
  import opened Spelling
  import PubSub

  // ----- The file as text -----

  /** The file's text: every line is followed by a line feed. */
  function FileText(lines: seq<string>): string {
    if lines == [] then "" else lines[0] + "\n" + FileText(lines[1..])
  }

  /** The text as the rewrite prints it: lines joined by line feeds, and one more if there are any. */
  function JoinLines(lines: seq<string>): string {
    if lines == [] then "" else if |lines| == 1 then lines[0] else lines[0] + "\n" + JoinLines(lines[1..])
  }

  lemma {:induction false} PrintedText(lines: seq<string>)
    ensures JoinLines(lines) + (if lines != [] then "\n" else "") == FileText(lines)
  {
    if |lines| > 1 {
      PrintedText(lines[1..]);
      assert lines[0] + "\n" + JoinLines(lines[1..]) + "\n" == lines[0] + "\n" + (JoinLines(lines[1..]) + "\n");
    } else if |lines| == 1 {
      assert FileText(lines[1..]) == "";
    }
  }

  /** The characters that end a line when the file is read. A carriage return with a line feed behind
      it ends one line there and two here, the second of which is empty and never a command. */
  predicate Terminator(c: char) {
    c == '\n' || c == '\r' || c == '\U{2028}' || c == '\U{2029}'
  }

  /** Reading a file line by line; a last line without a terminator counts. */
  function ReadLines(text: string): seq<string>
    decreases |text|
  {
    if text == "" then []
    else
      var n := LineEnd(text);
      [text[..n]] + if n == |text| then [] else ReadLines(text[n + 1..])
  }

  function LineEnd(text: string): (n: nat)
    ensures n <= |text|
    ensures forall i :: 0 <= i < n ==> !Terminator(text[i])
    ensures n < |text| ==> Terminator(text[n])
  {
    if text == "" || Terminator(text[0]) then 0 else 1 + LineEnd(text[1..])
  }

  predicate OneLiner(line: string) {
    forall i :: 0 <= i < |line| ==> !Terminator(line[i])
  }

  predicate OneLiners(lines: seq<string>) {
    forall i :: 0 <= i < |lines| ==> OneLiner(lines[i])
  }

  lemma {:induction false} LineEndAt(line: string, end: char, rest: string)
    requires OneLiner(line) && Terminator(end)
    ensures LineEnd(line + [end] + rest) == |line|
  {
    if line != "" {
      LineEndAt(line[1..], end, rest);
      assert (line + [end] + rest)[1..] == line[1..] + [end] + rest;
    }
  }

  /** One line and its terminator in front. */
  lemma {:induction false} ReadFirst(line: string, end: char, rest: string)
    requires OneLiner(line) && Terminator(end)
    ensures ReadLines(line + [end] + rest) == [line] + ReadLines(rest)
  {
    LineEndAt(line, end, rest);
    var text := line + [end] + rest;
    assert text[..|line|] == line && text[|line| + 1..] == rest;
  }

  /** The lines of a file come back as they were written if and only if none holds a terminator. */
  lemma {:induction false} ReadWritten(lines: seq<string>)
    ensures ReadLines(FileText(lines)) == lines <==> OneLiners(lines)
  {
    if OneLiners(lines) {
      ReadWhole(lines);
    } else {
      ReadClean(FileText(lines));
    }
  }

  lemma {:induction false} ReadWhole(lines: seq<string>)
    requires OneLiners(lines)
    ensures ReadLines(FileText(lines)) == lines
  {
    if lines != [] {
      ReadWhole(lines[1..]);
      ReadFirst(lines[0], '\n', FileText(lines[1..]));
    }
  }

  /** Line feed, carriage return, line separator, paragraph separator. */
  predicate EndsLine(c: char) {
    c as int in [0x0A, 0x0D, 0x2028, 0x2029]
  }

  lemma {:induction false} EndsLineExactly(c: char)
    ensures EndsLine(c) <==> Terminator(c)
  {
  }

  /** A character stands between two lines if and only if it is one of those four. */
  lemma {:induction false} LinesApart(a: string, c: char, b: string)
    requires (forall i :: 0 <= i < |a| ==> !EndsLine(a[i])) && (forall i :: 0 <= i < |b| ==> !EndsLine(b[i]))
    ensures EndsLine(c) ==> ReadLines(a + [c] + b) == [a] + if b == "" then [] else [b]
    ensures !EndsLine(c) ==> ReadLines(a + [c] + b) == [a + [c] + b]
  {
    hide EndsLine, Terminator;
    forall d: char ensures EndsLine(d) <==> Terminator(d) { EndsLineExactly(d); }
    ReadAlone(b);
    if EndsLine(c) { ReadFirst(a, c, b); } else { ReadAlone(a + [c] + b); }
  }

  lemma {:induction false} ReadAlone(line: string)
    requires OneLiner(line)
    ensures ReadLines(line) == if line == "" then [] else [line]
  {
    if line != "" {
      assert LineEnd(line) == |line| && line[..|line|] == line;
    }
  }

  /** No line that is read holds a terminator. */
  lemma {:induction false} ReadClean(text: string)
    ensures OneLiners(ReadLines(text))
    decreases |text|
  {
    if text != "" && LineEnd(text) < |text| {
      ReadClean(text[LineEnd(text) + 1..]);
    }
  }

  /** Appending lines appends their text. */
  lemma {:induction false} FileTextAppend(a: seq<string>, b: seq<string>)
    ensures FileText(a + b) == FileText(a) + FileText(b)
  {
    if a == [] {
      assert a + b == b;
    } else {
      FileTextAppend(a[1..], b);
      TailOfAppend(a, b);
      Associative(a[0] + "\n", FileText(a[1..]), FileText(b));
    }
  }

  lemma {:induction false} TokenOneLine(t: string)
    requires IsToken(t)
    ensures OneLiner(t)
  {
  }

  lemma {:induction false} JoinOneLine(ts: seq<string>)
    requires AllTokens(ts)
    ensures OneLiner(Join(ts))
  {
    if ts != [] {
      hide IsToken;
      TokenOneLine(ts[0]);
      JoinOneLine(ts[1..]);
    }
  }

  lemma {:induction false} IntOneLine(n: int)
    ensures OneLiner(IntText(n))
  {
  }

  lemma {:induction false} OneLineAppend(a: string, b: string)
    requires OneLiner(a) && OneLiner(b)
    ensures OneLiner(a + b)
  {
  }

  lemma {:induction false} CommandWordsOneLine()
    ensures OneLiner("SET ") && OneLiner(" EX ") && OneLiner("RPUSH ") && OneLiner("HSET ") && OneLiner("EXPIRE ")
    ensures OneLiner(" ")
  {
  }

  /** A line that a handler executes as a data command, and that is read back whole. */
  ghost predicate Ordinary(line: string) {
    OneLiner(line) && Parse(line).Parsed? && Parse(line).command.OnData?
  }

  ghost predicate AllOrdinary(lines: seq<string>) {
    forall i :: 0 <= i < |lines| ==> Ordinary(lines[i])
  }

  lemma {:induction false} WordLine(word: string, k: string, rest: string)
    requires OneLiner(word) && IsToken(k) && OneLiner(rest)
    ensures OneLiner(word + k + " " + rest)
  {
    hide IsToken, OneLiner;
    CommandWordsOneLine();
    TokenOneLine(k);
    OneLineAppend(word, k);
    OneLineAppend(word + k, " ");
    OneLineAppend(word + k + " ", rest);
  }

  lemma {:induction false} ExpireOrdinary(k: string, seconds: int)
    requires IsToken(k) && seconds <= MAX_TTL_SECONDS
    ensures AllOrdinary(ExpireLine(k, seconds))
  {
    hide IsToken, OneLiner, Parse, IntText;
    if seconds > 0 {
      CommandWordsOneLine();
      IntOneLine(seconds);
      WordLine("EXPIRE ", k, IntText(seconds));
      ParseExpireLine(k, seconds);
    }
  }

  lemma {:induction false} SetOrdinary(k: string, x: string, seconds: int)
    requires IsToken(k) && IsToken(x) && seconds <= MAX_TTL_SECONDS
    ensures AllOrdinary(LinesFor(k, Str(x), seconds))
  {
    hide IsToken, OneLiner, Parse, IntText;
    CommandWordsOneLine();
    TokenOneLine(x);
    IntOneLine(seconds);
    WordLine("SET ", k, x);
    OneLineAppend("SET " + k + " " + x, " EX ");
    OneLineAppend("SET " + k + " " + x + " EX ", IntText(seconds));
    ParseSetLine(k, x);
    if seconds > 0 { ParseSetExLine(k, x, seconds); }
  }

  lemma {:induction false} LinesForOrdinary(k: string, v: Value, seconds: int)
    requires IsToken(k) && TokenValue(v) && WellFormed(v) && seconds <= MAX_TTL_SECONDS
    ensures AllOrdinary(LinesFor(k, v, seconds))
  {
    hide IsToken, OneLiner, Parse, IntText, Join, Flat, ExpireLine;
    CommandWordsOneLine();
    match v
    case Str(x) => SetOrdinary(k, x, seconds);
    case List(l) =>
      ExpireOrdinary(k, seconds);
      JoinOneLine(l);
      WordLine("RPUSH ", k, Join(l));
      if l != [] { ParsePushLine(k, l); }
    case Hash(h) =>
      ExpireOrdinary(k, seconds);
      FlatPairs(h.keys, h.at);
      JoinOneLine(Flat(h.keys, h.at));
      WordLine("HSET ", k, Join(Flat(h.keys, h.at)));
      if h.keys != [] { ParseHashLine(k, h); }
  }

  lemma {:induction false} TtlAtMost(p: State, now: int, k: string)
    requires p.Valid() && Storable(p, now)
    ensures TtlOf(p, now, k) <= MAX_TTL_SECONDS
    ensures p.Has(k) ==> IsToken(k) && TokenValue(p.values.at[k]) && WellFormed(p.values.at[k])
  {
    hide IsToken, TokenValue;
  }

  lemma {:induction false} LinesForAllOrdinary(p: State, now: int, keys: seq<string>)
    requires p.Valid() && Storable(p, now) && forall k :: k in keys ==> p.Has(k)
    ensures AllOrdinary(LinesForAll(p, now, keys))
  {
    hide State.Valid, IsToken, TokenValue, WellFormed, LinesFor, Storable, TtlOf, Ordinary;
    if keys != [] {
      var n := |keys| - 1;
      var k := keys[n];
      assert k in keys;
      LinesForAllOrdinary(p, now, keys[..n]);
      TtlAtMost(p, now, k);
      LinesForOrdinary(k, p.values.at[k], TtlOf(p, now, k));
    }
  }

  /** What a rewrite starts its new file with. */
  lemma {:induction false} CompactOrdinary(s: State, now: int)
    requires s.Valid() && Storable(s, now)
    ensures AllOrdinary(Compact(s, now))
  {
    hide State.Valid, Keep, Purge, Storable, LinesForAll;
    var p := Purge(s, now, s.values.keys);
    PurgeListed(s, now);
    PurgeRestricts(s, now, s.values.keys);
    RestrictStorable(p, s, now);
    LinesForAllOrdinary(p, now, p.values.keys);
  }

  /** The text a rewrite prints reads back as the lines it compacted the store to. */
  lemma {:induction false} CompactReadsBack(s: State, now: int)
    requires s.Valid() && Storable(s, now)
    ensures var lines := Compact(s, now);
            ReadLines(JoinLines(lines) + if lines != [] then "\n" else "") == lines
  {
    hide State.Valid, Storable, Compact, OneLiner, Parse;
    CompactOrdinary(s, now);
    PrintedText(Compact(s, now));
    ReadWritten(Compact(s, now));
  }

  /** The text of the file after a line is written, and of the temporary file once the detached buffer
      is appended to it. */
  lemma {:induction false} TextAppended(w: Writer, line: string)
    ensures w.fd.Open? ==> FileText(Append(w, line).aof) == FileText(w.aof) + (line + "\n")
    ensures w.phase.Appending? ==>
              FileText(w.phase.temp + w.phase.tail) == FileText(w.phase.temp) + FileText(w.phase.tail)
  {
    FileTextAppend(w.aof, [line]);
    NothingAppended(line + "\n");
    assert FileText([line]) == line + "\n" + FileText([]);
    if w.phase.Appending? { FileTextAppend(w.phase.temp, w.phase.tail); }
  }

  // ----- The files hold data commands, one a line -----

  /** Whatever the writer holds is ordinary. */
  ghost predicate WritesOrdinary(w: Writer) {
    && AllOrdinary(w.aof)
    && match w.phase
       case Idle => true
       case Building(commands, buffer) => AllOrdinary(commands) && AllOrdinary(buffer)
       case Appending(temp, tail) => AllOrdinary(temp) && AllOrdinary(tail)
       case Renaming(temp) => AllOrdinary(temp)
  }

  lemma {:induction false} TrimOneLine(line: string)
    requires OneLiner(line)
    ensures OneLiner(Trim(line))
  {
    var s := line[SpaceEnd(line)..];
    assert OneLiner(s);
    TrimEndOneLine(s);
  }

  lemma {:induction false} TrimEndOneLine(s: string)
    requires OneLiner(s)
    ensures OneLiner(TrimEnd(s))
  {
    if s != [] && IsSpace(s[|s| - 1]) {
      TrimEndOneLine(s[..|s| - 1]);
    }
  }

  /** The line of a logged command. */
  lemma {:induction false} LoggedOrdinary(s: State, e: Event)
    requires e.Command? ==> Parse(e.item.line) == Parsed(e.item.command) && OneLiner(e.item.line)
    ensures AllOrdinary(LineOf(s, e))
  {
    hide Execute, Parse, OneLiner, Trim;
    if e.Command? {
      StoreCommands(s, e.now, e.item.command);
      ParseTrimmed(e.item.line);
      TrimOneLine(e.item.line);
    }
  }

  lemma {:induction false} AppendOrdinary(w: Writer, line: string)
    requires WritesOrdinary(w) && Ordinary(line)
    ensures WritesOrdinary(Append(w, line))
  {
    hide Ordinary;
  }

  lemma {:induction false} ResumeOrdinary(w: Writer, ok: bool)
    requires WritesOrdinary(w)
    ensures WritesOrdinary(Continue(w, ok))
  {
    hide Ordinary;
  }

  lemma {:induction false} StepOrdinary(g: Engine, e: Event, last: int)
    requires WritesOrdinary(g.writer) && Healthy(g.store, last) && last <= TimeOf(e, last)
    requires e.Command? ==> Parse(e.item.line) == Parsed(e.item.command) && OneLiner(e.item.line)
    ensures WritesOrdinary(StepEngine(g, e).writer)
  {
    hide Execute, Parse, OneLiner, Ordinary, Trim, Append, Compact, Compacted, Taken, Checked, Healthy, Continue;
    hide PubSub.Subscribe, PubSub.Unsubscribe, PubSub.Deliveries, Step;
    LoggedOrdinary(g.store, e);
    match e
    case Command(now, item) =>
      HealthyLater(g.store, last, now);
      HealthyStorable(g.store, now);
      CompactOrdinary(g.store, now);
      StoreCommands(g.store, now, item.command);
      if LineOf(g.store, e) != [] {
        assert Ordinary(LineOf(g.store, e)[0]);
        AppendOrdinary(g.writer, Trim(item.line));
      }
    case Beside(tick) =>
      if tick.Awaited? { ResumeOrdinary(g.writer, tick.ok); }
  }

  lemma {:induction false} HealthyStorable(s: State, now: int)
    requires Healthy(s, now)
    ensures s.Valid() && Storable(s, now)
  {
    hide State.Valid, Storable;
  }

  lemma {:induction false} RunOrdinary(g: Engine, events: seq<Event>, start: int)
    requires WritesOrdinary(g.writer) && Healthy(g.store, start) && Timely(events, start) && Spoken(events)
    requires EventsHave(OneLiner, events)
    ensures WritesOrdinary(RunEngine(g, events).writer)
  {
    hide WritesOrdinary, Healthy, StepEngine, Parse, OneLiner;
    if events != [] {
      var n := |events| - 1;
      RunOrdinary(g, events[..n], start);
      RunHealthy(g, events[..n], start);
      StepOrdinary(RunEngine(g, events[..n]), events[n], Clock(start, events[..n]));
    }
  }

  /** After any trace whose lines hold no terminator, everything in the file is a data command on a line
      of its own. */
  lemma {:induction false} TraceOrdinary(g: Engine, trace: seq<Input>, start: int)
    requires WritesOrdinary(g.writer) && Healthy(g.store, start) && TimelyTrace(trace, start)
    requires TextsHave(OneLiner, trace)
    ensures WritesOrdinary(HandleAll(Start(g), trace).engine.writer)
  {
    hide WritesOrdinary, Healthy, RunEngine, HandleAll, TraceEvents, Spoken, Timely, EventsHave, TextsHave;
    TraceIsRun(g, trace);
    EventsTimely(g, trace, start);
    EventsSpoken(g, trace);
    TraceEventsHave(OneLiner, g, trace);
    RunOrdinary(g, TraceEvents(g, trace), start);
  }

  // ----- Recovery from the text -----

  /** The handler that recovers: a store, and the commands queued by a MULTI in the file. */
  datatype Replayer = Replayer(store: State, queued: Option<seq<Command>>)

  function ExecuteEach(s: State, t: int, commands: seq<Command>): State {
    if commands == [] then s
    else Execute(ExecuteEach(s, t, commands[..|commands| - 1]), t, commands[|commands| - 1]).state
  }

  /** One line of the file; an empty one, which is skipped, does not parse. */
  function ReplayerLine(r: Replayer, t: int, line: string): Replayer {
    var parsed := Parse(line);
    if parsed.Malformed? then r
    else
      match parsed.command
      case Multi => if r.queued.Some? then r else r.(queued := Some([]))
      case Exec => if r.queued.None? then r else Replayer(ExecuteEach(r.store, t, r.queued.value), None)
      case Discard => r.(queued := None)
      case c =>
        if r.queued.Some? then r.(queued := Some(r.queued.value + [c]))
        else r.(store := Execute(r.store, t, c).state)
  }

  function ReplayerLines(r: Replayer, t: int, lines: seq<string>): Replayer {
    if lines == [] then r
    else ReplayerLine(ReplayerLines(r, t, lines[..|lines| - 1]), t, lines[|lines| - 1])
  }

  /** What the server starts with: the file read line by line into the store. */
  function Recover(s: State, t: int, text: string): State {
    ReplayerLines(Replayer(s, None), t, ReadLines(text)).store
  }

  /** On a file of data commands the handler only executes. */
  lemma {:induction false} OrdinaryReplays(s: State, t: int, lines: seq<string>)
    requires AllOrdinary(lines)
    ensures ReplayerLines(Replayer(s, None), t, lines) == Replayer(Replay(s, t, lines), None)
  {
    hide Execute, Parse, OneLiner;
    if lines != [] {
      var n := |lines| - 1;
      assert Ordinary(lines[n]);
      OrdinaryReplays(s, t, lines[..n]);
    }
  }

  /** What such lines come to behind a MULTI: nothing until an EXEC, and nothing at all after a DISCARD; a
      second MULTI is ignored. Outside a transaction EXEC and DISCARD are ignored. */
  lemma {:induction false} TransactionReplays(s: State, t: int, lines: seq<string>)
    requires AllOrdinary(lines)
    ensures var r := ReplayerLines(Replayer(s, None), t, ["MULTI"] + lines);
            && r.store == s && ReplayerLine(r, t, "MULTI") == r
            && ReplayerLine(r, t, "EXEC") == Replayer(Replay(s, t, lines), None)
            && ReplayerLine(r, t, "DISCARD") == Replayer(s, None)
    ensures ReplayerLine(Replayer(s, None), t, "EXEC") == Replayer(s, None)
    ensures ReplayerLine(Replayer(s, None), t, "DISCARD") == Replayer(s, None)
  {
    hide Execute, Parse, OneLiner, Replay, ReplayerLines;
    TransactionWords();
    LinesQueued(s, t, lines);
  }

  lemma {:induction false} LinesQueued(s: State, t: int, lines: seq<string>)
    requires AllOrdinary(lines)
    ensures var r := ReplayerLines(Replayer(s, None), t, ["MULTI"] + lines);
            r.store == s && r.queued.Some? && ExecuteEach(s, t, r.queued.value) == Replay(s, t, lines)
  {
    hide Parse, Replay, ReplayerLines, ReplayerLine, ExecuteEach, OneLiner;
    if lines == [] {
      MultiQueues(s, t);
      NothingAppended(["MULTI"]);
    } else {
      var n := |lines| - 1;
      var front := lines[..n];
      var r := ReplayerLines(Replayer(s, None), t, ["MULTI"] + front);
      LinesQueued(s, t, front);
      assert Ordinary(lines[n]);
      assert lines == front + [lines[n]];
      Associative(["MULTI"], front, [lines[n]]);
      ReplayerSnoc(Replayer(s, None), t, ["MULTI"] + front, lines[n]);
      LineQueued(s, r, t, lines[n]);
      ReplaySnoc(s, t, front, lines[n]);
    }
  }

  lemma {:induction false} MultiQueues(s: State, t: int)
    ensures ReplayerLines(Replayer(s, None), t, ["MULTI"]) == Replayer(s, Some([]))
    ensures ExecuteEach(s, t, []) == Replay(s, t, []) == s
  {
    hide Execute, Parse;
    TransactionWords();
    ReplayerSnoc(Replayer(s, None), t, [], "MULTI");
    NothingAppended(["MULTI"]);
  }

  lemma {:induction false} ReplayerSnoc(r: Replayer, t: int, lines: seq<string>, line: string)
    ensures ReplayerLines(r, t, lines + [line]) == ReplayerLine(ReplayerLines(r, t, lines), t, line)
    ensures ReplayerLines(r, t, []) == r
  {
    hide ReplayerLine;
    FrontOfAppend(lines, [line]);
  }

  lemma {:induction false} LineQueued(s: State, r: Replayer, t: int, line: string)
    requires Ordinary(line) && r.queued.Some?
    ensures var u := ReplayerLine(r, t, line);
            && u.store == r.store && u.queued.Some?
            && ExecuteEach(s, t, u.queued.value) == ReplayLine(ExecuteEach(s, t, r.queued.value), t, line)
  {
    hide Execute, Parse, OneLiner;
    FrontOfAppend(r.queued.value, [Parse(line).command]);
  }

  /** So the text of such a file recovers to what its lines replay to. */
  lemma {:induction false} TextReplays(s: State, t: int, lines: seq<string>)
    requires AllOrdinary(lines)
    ensures Recover(s, t, FileText(lines)) == Replay(s, t, lines)
  {
    hide Parse, OneLiner, ReplayerLines, Replay, FileText, ReadLines;
    ReadWritten(lines);
    OrdinaryReplays(s, t, lines);
  }

  /** Recovery from disk: after every input of any trace whose lines hold no terminator, with a clock that
      does not run back and while the executed events run smoothly, the text at the path, read by the
      recovering handler into an empty store of the same capacity, gives the live data back. */
  lemma {:induction false} DiskRecovery(g: Engine, trace: seq<Input>, start: int, t: int)
    requires Current(g, t) && Healthy(g.store, start) && WritesOrdinary(g.writer)
    requires TimelyTrace(trace, start) && SmoothRun(g, TraceEvents(g, trace)) && TextsHave(OneLiner, trace)
    ensures forall n :: 0 <= n <= |trace| ==>
              var u := HandleAll(Start(g), trace[..n]).engine;
              SameData(u.store, Recover(Empty(g.store.capacity), t, FileText(u.writer.aof)))
  {
    hide Current, Healthy, WritesOrdinary, HandleAll, TraceEvents, SmoothRun, SameData, Replay, Recover, FileText;
    CrashRecovery(g, trace, start, t);
    forall n | 0 <= n <= |trace|
      ensures var u := HandleAll(Start(g), trace[..n]).engine;
              SameData(u.store, Recover(Empty(g.store.capacity), t, FileText(u.writer.aof)))
    {
      TimelyPrefix(trace, start, n);
      TraceOrdinary(g, trace[..n], start);
      FileOrdinary(HandleAll(Start(g), trace[..n]).engine.writer);
      TextReplays(Empty(g.store.capacity), t, HandleAll(Start(g), trace[..n]).engine.writer.aof);
    }
  }

  lemma {:induction false} FileOrdinary(w: Writer)
    requires WritesOrdinary(w)
    ensures AllOrdinary(w.aof)
  {
  }

  lemma {:induction false} TimelyPrefix(trace: seq<Input>, start: int, n: nat)
    requires TimelyTrace(trace, start) && n <= |trace|
    ensures TimelyTrace(trace[..n], start)
    decreases |trace|
  {
    if n == |trace| {
      assert trace[..n] == trace;
    } else {
      var front := trace[..|trace| - 1];
      TimelyPrefix(front, start, n);
      assert front[..n] == trace[..n];
    }
  }

  // ----- A line with a terminator inside -----

  /** Alone in a line, no word makes the recovering handler write anything. */
  lemma {:induction false} LoneWord(c: nat, t: int, x: string)
    requires IsToken(x)
    ensures ReplayerLine(Replayer(Empty(c), None), t, x).store == Empty(c)
  {
    hide Step, IsToken, WordOf, Upper;
    assert AllTokens([x]);
    ParseJoined([x]);
    assert Join([x]) == x;
    var word := WordOf(Upper(x));
    assert Parse(x) == ParseTokens(word, [x]);
    hide Parse;
    assert ParseTokens(word, [x]).Parsed? ==> !ParseTokens(word, [x]).command.OnData?
                                              && !ParseTokens(word, [x]).command.ListKeys?;
    hide ParseTokens;
    assert ExecuteEach(Empty(c), t, []) == Empty(c);
  }

  lemma {:induction false} SplitParses(k: string, x: string)
    requires IsToken(k) && IsToken(x)
    ensures Parse("SET " + k + "\r" + x) == Parsed(OnData(k, Act.Set(x, None)))
    ensures Parse("SET " + k).Malformed?
  {
    hide IsToken, WordOf, Upper, Parse, Words, Join;
    var line := "SET " + k + "\r" + x;
    PrintedWords();
    assert AllTokens(["SET", k]) && AllTokens([x]);
    TwoJoined("SET", k);
    TwoJoined(x, k);
    assert "SET" + " " == "SET ";
    ParseJoined(["SET", k]);
    WordsApart("SET " + k, '\r', x);
    WordsJoin(["SET", k]);
    WordsJoin([x]);
    TokensAreWords(line);
    assert ["SET", k] + [x] == ["SET", k, x];
    ParseWords(line, ["SET", k, x]);
  }

  lemma {:induction false} SplitReads(k: string, x: string)
    requires IsToken(k) && IsToken(x)
    ensures ReadLines(FileText(["SET " + k + "\r" + x])) == ["SET " + k, x]
  {
    hide IsToken, OneLiner, ReadLines;
    var line := "SET " + k + "\r" + x;
    CommandWordsOneLine();
    TokenOneLine(k);
    TokenOneLine(x);
    OneLineAppend("SET ", k);
    ReadFirst("SET " + k, '\r', x + "\n");
    ReadFirst(x, '\n', "");
    NothingRead();
    NothingAppended(line + "\n");
    NothingAppended(x + "\n");
    assert FileText([line]) == line + "\n" + FileText([]);
    Associative("SET " + k + "\r", x, "\n");
  }

  lemma {:induction false} NothingRead()
    ensures ReadLines("") == []
  {
  }

  lemma {:induction false} TrimEnds(line: string)
    requires line != "" && !IsSpace(line[0]) && !IsSpace(line[|line| - 1])
    ensures Trim(line) == line
  {
    assert line[0..] == line;
  }

  /** The restriction to lines without terminators is needed. A SET whose words are separated by a
      carriage return is executed and logged, and the file recovers to nothing. */
  lemma {:induction false} LineLost(c: nat, conn: string, k: string, x: string, now: int, t: int)
    requires c >= 1 && IsToken(k) && IsToken(x)
    ensures var item := Item(conn, "SET " + k + "\r" + x, OnData(k, Act.Set(x, None)));
            var u := StepEngine(Fresh(Empty(c)), Command(now, item));
            && Parse(item.line) == Parsed(item.command)
            && u.store.Has(k)
            && Recover(Empty(c), t, FileText(u.writer.aof)) == Empty(c)
  {
    hide IsToken, Parse, FileText, ReadLines, Trim, Execute, ReplayerLine;
    var line := "SET " + k + "\r" + x;
    SplitParses(k, x);
    SplitReads(k, x);
    LoneWord(c, t, x);
    TokenEnds(x);
    assert line[0] == 'S' && line[|line| - 1] == x[|x| - 1];
    TrimEnds(line);
    SetOnEmpty(c, k, x, now);
    NothingAppended([line]);
    TwoReplayed(Replayer(Empty(c), None), t, "SET " + k, x);
  }

  lemma {:induction false} TwoReplayed(r: Replayer, t: int, a: string, b: string)
    requires Parse(a).Malformed?
    ensures ReplayerLines(r, t, [a, b]) == ReplayerLine(r, t, b)
  {
    hide Parse;
    assert [a, b][..1] == [a] && [a][..0] == [];
    assert ReplayerLines(r, t, []) == r;
    assert ReplayerLines(r, t, [a]) == r;
  }

  lemma {:induction false} TokenEnds(x: string)
    requires IsToken(x)
    ensures x != "" && !IsSpace(x[|x| - 1])
  {
  }

  lemma {:induction false} SetOnEmpty(c: nat, k: string, x: string, now: int)
    requires c >= 1
    ensures var d := Execute(Empty(c), now, OnData(k, Act.Set(x, None)));
            d.logged && d.state.Has(k)
  {
  }
}
