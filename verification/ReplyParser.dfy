/** The incremental reply parser: how the text is cut into chunks does not matter to it. */
module ReplyStream {
  import opened Options
  import opened Text
  import opened Replies

  datatype Reply =
    | Success(value: string)
    | Failed(message: string)
    | Number(n: Option<int>)          // None stands for NaN
    | Bulk(text: Option<string>)
    | Items(items: seq<Option<string>>)

  /** What the parser emits. */
  datatype Event = OnReply(reply: Reply) | OnPush(reply: Reply) | OnError(prefix: char)

  datatype ParserState = ParserState(
    buffer: string, parsingArray: bool, arrayLength: Option<int>, arrayItems: seq<Option<string>>)

  const IDLE: ParserState := ParserState("", false, Some(0), [])

  /** CRLF at position `i`. */
  predicate CrlfAt(s: string, i: int) {
    0 <= i < |s| - 1 && s[i] == '\r' && s[i + 1] == '\n'
  }

  /** The position of the first CRLF, if there is one. */
  function IndexOfCrlf(s: string): (r: Option<nat>)
    ensures r.Some? ==> CrlfAt(s, r.value) && forall i :: i < r.value ==> !CrlfAt(s, i)
    ensures r.None? ==> forall i :: !CrlfAt(s, i)
  {
    if |s| < 2 then None
    else if CrlfAt(s, 0) then Some(0)
    else
      var r := IndexOfCrlf(s[1..]);
      assert forall i {:trigger CrlfAt(s, i)} :: i > 0 ==> CrlfAt(s, i) == CrlfAt(s[1..], i - 1);
      if r.None? then None else Some(r.value + 1)
  }

  /** `parseInt(s, 10)`: leading whitespace, an optional sign, then digits up to the first other
      character; None when there are no digits. */
  function ParseInt(s: string): Option<int> {
    var t := s[SpaceEnd(s)..];
    var signed := t != [] && (t[0] == '-' || t[0] == '+');
    var digits := if signed then t[1..] else t;
    var n := DigitsEnd(digits);
    if n == 0 then None
    else Some(if signed && t[0] == '-' then -(DigitsValue(digits[..n]) as int) else DigitsValue(digits[..n]))
  }

  function DigitsEnd(s: string): (n: nat)
    ensures n <= |s| && AllDigits(s[..n])
    ensures n < |s| ==> !IsDigit(s[n])
  {
    if s == [] || !IsDigit(s[0]) then 0
    else
      assert s[..1 + DigitsEnd(s[1..])] == [s[0]] + s[1..][..DigitsEnd(s[1..])];
      1 + DigitsEnd(s[1..])
  }

  function ParseBulkLine(line: string): Option<string> {
    if line == "$(nil)" then None else Some(if line == [] then [] else line[1..])
  }

  /** Pub/sub messages are told from ordinary arrays by their first element. */
  function Tagged(items: seq<Option<string>>): Event {
    if items != [] && (items[0] == Some("message") || items[0] == Some("subscribe") || items[0] == Some("unsubscribe"))
    then OnPush(Items(items))
    else OnReply(Items(items))
  }

  function ProcessLine(st: ParserState, line: string): (ParserState, seq<Event>) {
    if st.parsingArray then
      var items := st.arrayItems + [ParseBulkLine(line)];
      if st.arrayLength == Some(|items|) then (ParserState(st.buffer, false, Some(0), []), [Tagged(items)])
      else (st.(arrayItems := items), [])
    else if line == [] then (st, [])
    else
      var rest := line[1..];
      match line[0]
      case '+' => (st, [OnReply(Success(rest))])
      case '-' => (st, [OnReply(Failed(rest))])
      case ':' => (st, [OnReply(Number(ParseInt(rest)))])
      case '$' => (st, [OnReply(Bulk(ParseBulkLine(line)))])
      case '*' =>
        var length := ParseInt(rest);
        if length == Some(0) then (st, [OnReply(Items([]))])
        else (ParserState(st.buffer, true, length, []), [])
      case c => (st, [OnError(c)])
  }

  /** Consume complete lines until none is left. */
  function Pump(st: ParserState): (ParserState, seq<Event>)
    decreases |st.buffer|
  {
    var i := IndexOfCrlf(st.buffer);
    if i.None? then (st, [])
    else
      var line, rest := st.buffer[..i.value], st.buffer[i.value + 2..];
      var (st1, events) := ProcessLine(st.(buffer := rest), line);
      BufferKept(st.(buffer := rest), line);
      var (st2, more) := Pump(st1);
      (st2, events + more)
  }

  lemma {:induction false} BufferKept(st: ParserState, line: string)
    ensures ProcessLine(st, line).0.buffer == st.buffer
  {
  }

  function Feed(st: ParserState, chunk: string): (ParserState, seq<Event>) {
    Pump(st.(buffer := st.buffer + chunk))
  }

  function FeedAll(st: ParserState, chunks: seq<string>): (ParserState, seq<Event>)
    decreases chunks
  {
    if chunks == [] then (st, [])
    else
      var (st1, events) := Feed(st, chunks[0]);
      var (st2, more) := FeedAll(st1, chunks[1..]);
      (st2, events + more)
  }

  // ----- Chunking does not matter -----

  /** Text that has arrived decides where its first line ends. */
  lemma {:induction false} IndexStable(s: string, t: string)
    requires IndexOfCrlf(s).Some?
    ensures IndexOfCrlf(s + t) == IndexOfCrlf(s)
  {
    var i := IndexOfCrlf(s).value;
    forall j | j <= i ensures CrlfAt(s + t, j) == CrlfAt(s, j) {}
    IndexUnique(s + t, i);
  }

  lemma {:induction false} IndexUnique(s: string, i: nat)
    requires CrlfAt(s, i) && forall j :: j < i ==> !CrlfAt(s, j)
    ensures IndexOfCrlf(s) == Some(i)
  {
  }

  /** Processing a line neither reads nor changes the buffer. */
  lemma {:induction false} ProcessAnyBuffer(st: ParserState, line: string, buffer: string)
    ensures ProcessLine(st.(buffer := buffer), line)
         == (ProcessLine(st, line).0.(buffer := buffer), ProcessLine(st, line).1)
  {
  }

  /** One turn of the pump: the first line of the buffer is `line`, behind it comes `rest`. */
  lemma {:induction false} PumpTurn(st: ParserState, line: string, rest: string)
    requires IndexOfCrlf(st.buffer) == Some(|line|) && st.buffer == line + CRLF + rest
    ensures var (st1, events) := ProcessLine(st.(buffer := rest), line);
            st1.buffer == rest && Pump(st) == (Pump(st1).0, events + Pump(st1).1)
  {
    assert st.buffer[..|line|] == line;
    assert st.buffer[|line| + 2..] == rest;
    BufferKept(st.(buffer := rest), line);
  }

  lemma {:induction false} PumpAppend(st: ParserState, t: string)
    ensures var (st1, e1) := Pump(st);
            var (st2, e2) := Pump(st1.(buffer := st1.buffer + t));
            Pump(st.(buffer := st.buffer + t)) == (st2, e1 + e2)
    decreases |st.buffer|
  {
    var i := IndexOfCrlf(st.buffer);
    if i.None? {
      assert [] + Pump(st.(buffer := st.buffer + t)).1 == Pump(st.(buffer := st.buffer + t)).1;
    } else {
      hide IndexOfCrlf, ProcessLine;
      var line, rest := st.buffer[..i.value], st.buffer[i.value + 2..];
      assert st.buffer == line + CRLF + rest;
      PumpTurn(st, line, rest);
      var (st1, events) := ProcessLine(st.(buffer := rest), line);
      var whole := st.(buffer := st.buffer + t);
      IndexStable(st.buffer, t);
      assert whole.buffer == line + CRLF + (rest + t);
      PumpTurn(whole, line, rest + t);
      ProcessAnyBuffer(st.(buffer := rest), line, rest + t);
      hide Pump;
      PumpAppend(st1, t);
      AppendAssoc(events, Pump(st1).1, Pump(Pump(st1).0.(buffer := Pump(st1).0.buffer + t)).1);
    }
  }

  lemma {:induction false} AppendAssoc<T>(a: seq<T>, b: seq<T>, c: seq<T>)
    ensures (a + b) + c == a + (b + c)
  {
  }

  /** Two chunks or their concatenation: the same events and the same state. */
  lemma {:induction false} FeedSplit(st: ParserState, a: string, b: string)
    ensures var (st1, e1) := Feed(st, a);
            var (st2, e2) := Feed(st1, b);
            Feed(st, a + b) == (st2, e1 + e2)
  {
    hide Pump;
    PumpAppend(st.(buffer := st.buffer + a), b);
    assert st.buffer + (a + b) == (st.buffer + a) + b;
  }

  /** Feeding chunk by chunk is feeding the concatenated text at once, up to text that a caller
      without pending lines has not completed. */
  lemma {:induction false} FeedConcat(st: ParserState, chunks: seq<string>)
    requires IndexOfCrlf(st.buffer).None?
    ensures FeedAll(st, chunks) == Feed(st, Concat(chunks))
    decreases chunks
  {
    if chunks == [] {
      assert st.buffer + "" == st.buffer;
    } else {
      var (st1, e1) := Feed(st, chunks[0]);
      PumpDrains(st.(buffer := st.buffer + chunks[0]));
      FeedConcat(st1, chunks[1..]);
      FeedSplit(st, chunks[0], Concat(chunks[1..]));
    }
  }

  lemma {:induction false} PumpDrains(st: ParserState)
    ensures IndexOfCrlf(Pump(st).0.buffer).None?
    decreases |st.buffer|
  {
    var i := IndexOfCrlf(st.buffer);
    if i.Some? {
      var rest := st.(buffer := st.buffer[i.value + 2..]);
      BufferKept(rest, st.buffer[..i.value]);
      PumpDrains(ProcessLine(rest, st.buffer[..i.value]).0);
    }
  }

  // ----- The parser -----

  class ReplyParser {
    var buffer: string
    var parsingArray: bool
    var arrayLength: Option<int>
    var arrayItems: seq<Option<string>>
    /** The events emitted so far. */
    var emitted: seq<Event>

    ghost function View(): ParserState
      reads this
    {
      ParserState(buffer, parsingArray, arrayLength, arrayItems)
    }

    constructor ()
      ensures View() == IDLE && emitted == []
    {
      buffer, parsingArray, arrayLength, arrayItems, emitted := "", false, Some(0), [], [];
    }

    method Append(chunk: string)
      modifies this
      ensures View() == Feed(old(View()), chunk).0
      ensures emitted == old(emitted) + Feed(old(View()), chunk).1
    {
      buffer := buffer + chunk;
      RunPump();
    }

    method RunPump()
      modifies this
      ensures View() == Pump(old(View())).0
      ensures emitted == old(emitted) + Pump(old(View())).1
    {
      hide ProcessLine, IndexOfCrlf;
      ghost var seen: seq<Event> := [];
      assert seen + Pump(View()).1 == Pump(View()).1;
      while true
        invariant Pump(old(View())) == (Pump(View()).0, seen + Pump(View()).1)
        invariant emitted == old(emitted) + seen
        decreases |buffer|
      {
        var crlfIndex := IndexOfCrlf(buffer);
        if crlfIndex.None? {
          break;
        }
        var line := buffer[..crlfIndex.value];
        assert buffer == line + CRLF + buffer[crlfIndex.value + 2..];
        PumpTurn(View(), line, buffer[crlfIndex.value + 2..]);
        buffer := buffer[crlfIndex.value + 2..];
        ghost var events := ProcessLine(View(), line).1;
        Process(line);
        AppendAssoc(seen, events, Pump(View()).1);
        seen := seen + events;
      }
    }

    method Process(line: string)
      modifies this
      ensures View() == ProcessLine(old(View()), line).0
      ensures emitted == old(emitted) + ProcessLine(old(View()), line).1
    {
      if parsingArray {
        arrayItems := arrayItems + [ParseBulkLine(line)];
        if arrayLength == Some(|arrayItems|) {
          var items := arrayItems;
          parsingArray, arrayItems, arrayLength := false, [], Some(0);
          if |items| >= 1
            && (items[0] == Some("message") || items[0] == Some("subscribe") || items[0] == Some("unsubscribe"))
          {
            emitted := emitted + [OnPush(Items(items))];
          } else {
            emitted := emitted + [OnReply(Items(items))];
          }
        }
        return;
      }
      if |line| == 0 {
        return;
      }
      var rest := line[1..];
      match line[0] {
        case '+' => emitted := emitted + [OnReply(Success(rest))];
        case '-' => emitted := emitted + [OnReply(Failed(rest))];
        case ':' => emitted := emitted + [OnReply(Number(ParseInt(rest)))];
        case '$' => emitted := emitted + [OnReply(Bulk(ParseBulkLine(line)))];
        case '*' =>
          var length := ParseInt(rest);
          if length == Some(0) {
            emitted := emitted + [OnReply(Items([]))];
          } else {
            parsingArray, arrayLength, arrayItems := true, length, [];
          }
        case prefix => emitted := emitted + [OnError(prefix)];
      }
    }
  }
}
