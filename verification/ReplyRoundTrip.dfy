/** What a client hears of the replies a server sends, however the text is cut into chunks; and which
    replies come through as they were meant. */
module ReplyRoundTrip {
  import opened Options
  import opened Sequences
  import opened Text
  import opened Replies
  import opened ReplyStream

  predicate NoCrlf(s: string) {
    IndexOfCrlf(s).None?
  }

  /** A text without CRLF ends at the CRLF put behind it, also when its own last character is CR. */
  lemma {:induction false} LineEnds(line: string, rest: string)
    requires NoCrlf(line)
    ensures IndexOfCrlf(line + CRLF + rest) == Some(|line|)
  {
    var s := line + CRLF + rest;
    forall j | j < |line| ensures !CrlfAt(s, j) {
      assert !CrlfAt(line, j);
    }
    IndexUnique(s, |line|);
  }

  /** One complete line in front of the buffer. */
  lemma {:induction false} PumpLine(st: ParserState, line: string, rest: string)
    requires NoCrlf(line) && st.buffer == line + CRLF + rest
    ensures var (st1, events) := ProcessLine(st.(buffer := rest), line);
            Pump(st) == (Pump(st1).0, events + Pump(st1).1)
  {
    LineEnds(line, rest);
    PumpTurn(st, line, rest);
  }

  lemma {:induction false} Prefixed(prefix: char, s: string)
    requires NoCrlf(s) && prefix != '\r'
    ensures NoCrlf([prefix] + s)
  {
  }

  lemma {:induction false} DigitsNoCrlf(s: string)
    requires forall i :: 0 <= i < |s| ==> s[i] != '\r'
    ensures NoCrlf(s)
  {
  }

  lemma {:induction false} IntNoCrlf(n: int)
    ensures NoCrlf(IntText(n))
  {
  }

  lemma {:induction false} DigitsEndAll(s: string)
    requires AllDigits(s)
    ensures DigitsEnd(s) == |s|
  {
  }

  lemma {:induction false} ParseDigits(d: string)
    requires d != "" && AllDigits(d)
    ensures ParseInt(d) == Some(DigitsValue(d))
    ensures ParseInt("-" + d) == Some(-(DigitsValue(d) as int))
  {
    hide DigitsEnd, DigitsValue;
    DigitsEndAll(d);
    assert IsDigit(d[0]) && d[..|d|] == d;
    assert SpaceEnd(d) == 0 && d[0..] == d;
    var s := "-" + d;
    assert SpaceEnd(s) == 0 && s[0..] == s && s[1..] == d;
  }

  lemma {:induction false} ParseIntText(n: int)
    ensures ParseInt(IntText(n)) == Some(n)
  {
    hide ParseInt, DigitsValue, Decimal;
    var m := if n < 0 then -n else n;
    DecimalValue(m);
    ParseDigits(Decimal(m));
  }

  // ----- What is sent -----

  /** A reply as the server sends it. `SentExec` wraps the replies of a transaction. */
  datatype Sent =
    | SentOk(message: string)
    | SentError(message: string)
    | SentWrongType
    | SentInteger(n: int)
    | SentValue(v: string)
    | SentNil
    | SentArray(items: seq<string>)
    | SentExec(parts: seq<Sent>)

  function Encode(r: Sent): string {
    match r
    case SentArray(items) => ArrayText(items)
    case SentExec(parts) => RawArrayText(seq(|parts|, i requires 0 <= i < |parts| => Encode(parts[i])))
    case _ => LineOf(r) + CRLF
  }

  function EncodeAll(rs: seq<Sent>): string {
    if rs == [] then "" else Encode(rs[0]) + EncodeAll(rs[1..])
  }

  /** The line of a one-line reply, without its terminator. */
  function LineOf(r: Sent): string {
    match r
    case SentOk(m) => "+" + m
    case SentError(m) => "-ERR " + m
    case SentWrongType => "-" + WRONGTYPE
    case SentInteger(n) => ":" + IntText(n)
    case SentValue(v) => "$" + v
    case SentNil => "$(nil)"
    case SentArray(items) => "*" + IntText(|items|)
    case SentExec(parts) => "*" + IntText(|parts|)
  }

  predicate OneLine(r: Sent) { !r.SentArray? && !r.SentExec? }

  /** No payload contains CRLF, and EXEC is not wrapped in EXEC. */
  predicate Whole(r: Sent) {
    match r
    case SentOk(m) => NoCrlf(m)
    case SentError(m) => NoCrlf(m)
    case SentValue(v) => NoCrlf(v)
    case SentArray(items) => forall i :: 0 <= i < |items| ==> NoCrlf(items[i])
    case SentExec(parts) => forall i :: 0 <= i < |parts| ==> !parts[i].SentExec? && Whole(parts[i])
    case _ => true
  }

  predicate WholeParts(rs: seq<Sent>) {
    forall i :: 0 <= i < |rs| ==> !rs[i].SentExec? && Whole(rs[i])
  }

  lemma {:induction false} LineNoCrlf(r: Sent)
    requires Whole(r) || !OneLine(r)
    ensures NoCrlf(LineOf(r)) && LineOf(r) != ""
  {
    match r
    case SentOk(m) => Prefixed('+', m);
    case SentError(m) => ErrNoCrlf(m);
    case SentWrongType => WrongTypeNoCrlf();
    case SentInteger(n) => IntNoCrlf(n); Prefixed(':', IntText(n));
    case SentValue(v) => Prefixed('$', v);
    case SentNil => DigitsNoCrlf(LineOf(r));
    case SentArray(items) => IntNoCrlf(|items|); Prefixed('*', IntText(|items|));
    case SentExec(parts) => IntNoCrlf(|parts|); Prefixed('*', IntText(|parts|));
  }

  lemma {:induction false} WrongTypeNoCrlf()
    ensures NoCrlf("-" + WRONGTYPE)
  {
    var a, b := "WRONGTYPE Operation against a key", " holding the wrong kind of value";
    assert forall i :: 0 <= i < |a| ==> a[i] != '\r';
    assert forall i :: 0 <= i < |b| ==> b[i] != '\r';
    DigitsNoCrlf(a + b);
    Prefixed('-', WRONGTYPE);
  }

  lemma {:induction false} ErrNoCrlf(m: string)
    requires NoCrlf(m)
    ensures NoCrlf("-ERR " + m)
  {
    Prefixed(' ', m);
    Prefixed('R', " " + m);
    Prefixed('R', "R" + (" " + m));
    Prefixed('E', "R" + ("R" + (" " + m)));
    Prefixed('-', "E" + ("R" + ("R" + (" " + m))));
    assert "-ERR " + m == "-" + ("E" + ("R" + ("R" + (" " + m))));
  }

  /** Between replies: no array under way. */
  predicate Between(st: ParserState) {
    !st.parsingArray && st.arrayLength == Some(0) && st.arrayItems == []
  }

  // ----- Lines -----

  /** The remaining `lines` of an array of `total` elements, `done` of which have arrived. */
  lemma {:induction false} PumpItems(st: ParserState, total: nat, done: seq<Option<string>>,
                                     lines: seq<string>, rest: string)
    requires lines != [] && |done| + |lines| == total
    requires forall i :: 0 <= i < |lines| ==> NoCrlf(lines[i])
    requires st == ParserState(Terminated(lines) + rest, true, Some(total), done)
    ensures var items := done + ParseLines(lines);
            var after := Pump(ParserState(rest, false, Some(0), []));
            Pump(st) == (after.0, [Tagged(items)] + after.1)
    decreases lines
  {
    hide Pump, IndexOfCrlf, Tagged, ParseBulkLine, NoCrlf, ProcessLine, Terminated, ParseLines;
    var line, more := lines[0], lines[1..];
    var tail := Terminated(more) + rest;
    var items := done + [ParseBulkLine(line)];
    LinesCons(lines, done);
    assert st.buffer == line + CRLF + tail;
    PumpLine(st, line, tail);
    ItemLine(st.(buffer := tail), total, line);
    if more == [] {
      assert tail == rest;
    } else {
      var inside := ParserState(tail, true, Some(total), items);
      PumpItems(inside, total, items, more, rest);
      assert [] + Pump(inside).1 == Pump(inside).1;
    }
  }

  lemma {:induction false} LinesCons(lines: seq<string>, done: seq<Option<string>>)
    requires lines != []
    ensures Terminated(lines) == lines[0] + CRLF + Terminated(lines[1..])
    ensures done + [ParseBulkLine(lines[0])] + ParseLines(lines[1..]) == done + ParseLines(lines)
    ensures lines[1..] == [] ==> Terminated(lines[1..]) == ""
    ensures lines[1..] == [] ==> done + ParseLines(lines) == done + [ParseBulkLine(lines[0])]
  {
  }

  /** One element line of an array under way. */
  lemma {:induction false} ItemLine(st: ParserState, total: nat, line: string)
    requires st.parsingArray && st.arrayLength == Some(total)
    ensures var items := st.arrayItems + [ParseBulkLine(line)];
            ProcessLine(st, line) ==
            if |items| == total then (ParserState(st.buffer, false, Some(0), []), [Tagged(items)])
            else (ParserState(st.buffer, true, Some(total), items), [])
  {
  }

  /** The header line of an array. */
  lemma {:induction false} HeaderLine(st: ParserState, n: nat)
    requires Between(st)
    ensures ProcessLine(st, "*" + IntText(n)) ==
            if n == 0 then (st, [Tagged([])]) else (ParserState(st.buffer, true, Some(n), []), [])
    ensures NoCrlf("*" + IntText(n))
  {
    IntNoCrlf(n);
    Prefixed('*', IntText(n));
    ParseIntText(n);
    assert ("*" + IntText(n))[1..] == IntText(n);
  }

  function Terminated(lines: seq<string>): string {
    if lines == [] then "" else lines[0] + CRLF + Terminated(lines[1..])
  }

  function ParseLines(lines: seq<string>): seq<Option<string>> {
    if lines == [] then [] else [ParseBulkLine(lines[0])] + ParseLines(lines[1..])
  }

  lemma {:induction false} ParseLinesAt(lines: seq<string>, i: nat)
    requires i < |lines|
    ensures |ParseLines(lines)| == |lines| && ParseLines(lines)[i] == ParseBulkLine(lines[i])
  {
    if i > 0 {
      ParseLinesAt(lines[1..], i - 1);
    } else if |lines| > 1 {
      ParseLinesAt(lines[1..], 0);
    }
  }

  /** A header and its element lines, in front of `rest`. */
  lemma {:induction false} PumpArray(st: ParserState, lines: seq<string>, rest: string)
    requires Between(st) && (forall i :: 0 <= i < |lines| ==> NoCrlf(lines[i]))
    requires st.buffer == "*" + IntText(|lines|) + CRLF + Terminated(lines) + rest
    ensures var after := Pump(st.(buffer := rest));
            Pump(st) == (after.0, [Tagged(ParseLines(lines))] + after.1)
  {
    hide Pump, IndexOfCrlf, IntText, Tagged, NoCrlf, ProcessLine, Terminated, ParseLines;
    var header := "*" + IntText(|lines|);
    var tail := Terminated(lines) + rest;
    HeaderLine(st.(buffer := tail), |lines|);
    assert st.buffer == header + CRLF + tail;
    PumpLine(st, header, tail);
    if lines == [] {
      NoLines();
      assert tail == rest;
    } else {
      var inside := ParserState(tail, true, Some(|lines|), []);
      PumpItems(inside, |lines|, [], lines, rest);
      assert [] + ParseLines(lines) == ParseLines(lines);
      assert [] + Pump(inside).1 == Pump(inside).1;
    }
  }

  lemma {:induction false} NoLines()
    ensures Terminated([]) == "" && ParseLines([]) == []
  {
  }

  lemma {:induction false} LinesParse(lines: seq<string>, items: seq<Option<string>>)
    requires |lines| == |items| && forall i :: 0 <= i < |lines| ==> ParseBulkLine(lines[i]) == items[i]
    ensures ParseLines(lines) == items
  {
    forall i | 0 <= i < |lines| ensures |ParseLines(lines)| == |lines| && ParseLines(lines)[i] == items[i] {
      ParseLinesAt(lines, i);
    }
  }

  function Values(items: seq<string>): (r: seq<Sent>)
    ensures |r| == |items| && forall i :: 0 <= i < |r| ==> r[i] == SentValue(items[i])
  {
    seq(|items|, i requires 0 <= i < |items| => SentValue(items[i]))
  }

  function BulkLines(items: seq<string>): (r: seq<string>)
    ensures |r| == |items| && forall i :: 0 <= i < |r| ==> r[i] == "$" + items[i]
  {
    seq(|items|, i requires 0 <= i < |items| => "$" + items[i])
  }

  lemma {:induction false} BulksTerminated(items: seq<string>)
    ensures Bulks(items) == Terminated(BulkLines(items))
  {
    if items != [] {
      BulksTerminated(items[1..]);
      assert BulkLines(items)[1..] == BulkLines(items[1..]);
    }
  }

  /** The lines of a reply, and of several. */
  function PartLines(r: Sent): (lines: seq<string>)
    ensures |lines| >= 1
  {
    if r.SentArray? then [LineOf(r)] + BulkLines(r.items) else [LineOf(r)]
  }

  function AllLines(rs: seq<Sent>): (lines: seq<string>)
    ensures |lines| >= |rs| && (rs == [] ==> lines == [])
  {
    if rs == [] then [] else PartLines(rs[0]) + AllLines(rs[1..])
  }

  lemma {:induction false} TerminatedAppend(a: seq<string>, b: seq<string>)
    ensures Terminated(a + b) == Terminated(a) + Terminated(b)
  {
    if a == [] {
      assert a + b == b;
    } else {
      TerminatedAppend(a[1..], b);
      TailOfAppend(a, b);
      Associative(a[0] + CRLF, Terminated(a[1..]), Terminated(b));
    }
  }

  lemma {:induction false} OneElement(text: string, line: string)
    ensures Concat([text]) == text
    ensures Terminated([line]) == line + CRLF
    ensures ParseLines([line]) == [ParseBulkLine(line)]
  {
  }

  lemma {:induction false} BulkNoCrlf(items: seq<string>)
    requires forall i :: 0 <= i < |items| ==> NoCrlf(items[i])
    ensures forall i :: 0 <= i < |items| ==> NoCrlf(BulkLines(items)[i])
  {
    hide NoCrlf;
    forall i | 0 <= i < |items| ensures NoCrlf(BulkLines(items)[i]) {
      Prefixed('$', items[i]);
    }
  }

  lemma {:induction false} PartTerminated(r: Sent)
    requires Whole(r) && !r.SentExec?
    ensures Encode(r) == Terminated(PartLines(r))
    ensures forall i :: 0 <= i < |PartLines(r)| ==> NoCrlf(PartLines(r)[i])
  {
    hide NoCrlf, IntText, Bulks, BulkLines;
    LineNoCrlf(r);
    OneElement("", LineOf(r));
    if r.SentArray? {
      BulksTerminated(r.items);
      BulkNoCrlf(r.items);
      TerminatedAppend([LineOf(r)], BulkLines(r.items));
    }
  }

  /** The text of several replies is the text of their lines. */
  lemma {:induction false} AllTerminated(rs: seq<Sent>)
    requires WholeParts(rs)
    ensures EncodeAll(rs) == Terminated(AllLines(rs))
    ensures forall i :: 0 <= i < |AllLines(rs)| ==> NoCrlf(AllLines(rs)[i])
    decreases rs
  {
    if rs == [] {
      NoLines();
    } else {
      hide NoCrlf, Encode, PartLines, Terminated;
      PartTerminated(rs[0]);
      AllTerminated(rs[1..]);
      TerminatedAppend(PartLines(rs[0]), AllLines(rs[1..]));
    }
  }

  lemma {:induction false} AllLinesAppend(a: seq<Sent>, b: seq<Sent>)
    ensures AllLines(a + b) == AllLines(a) + AllLines(b)
  {
    if a == [] {
      assert a + b == b;
    } else {
      hide PartLines;
      AllLinesAppend(a[1..], b);
      TailOfAppend(a, b);
      Associative(PartLines(a[0]), AllLines(a[1..]), AllLines(b));
    }
  }

  lemma {:induction false} ValuesLines(items: seq<string>)
    ensures AllLines(Values(items)) == BulkLines(items)
  {
    if items != [] {
      ValuesLines(items[1..]);
      assert Values(items)[1..] == Values(items[1..]);
      assert BulkLines(items) == ["$" + items[0]] + BulkLines(items[1..]);
    }
  }

  /** No part is an array with elements: one line a part. */
  predicate OneLined(parts: seq<Sent>) {
    forall i :: 0 <= i < |parts| ==> parts[i].SentArray? ==> parts[i].items == []
  }

  lemma {:induction false} FlatLines(parts: seq<Sent>)
    ensures |AllLines(parts)| == |parts| <==> OneLined(parts)
    ensures OneLined(parts) ==> forall i :: 0 <= i < |parts| ==> AllLines(parts)[i] == LineOf(parts[i])
    decreases parts
  {
    if parts != [] {
      hide LineOf;
      FlatLines(parts[1..]);
      assert |PartLines(parts[0])| == 1 <==> (parts[0].SentArray? ==> parts[0].items == []);
      if OneLined(parts) {
        assert OneLined(parts[1..]) by {
          assert forall i :: 0 <= i < |parts[1..]| ==> parts[1..][i] == parts[i + 1];
        }
      }
      if OneLined(parts[1..]) && |PartLines(parts[0])| == 1 {
        assert forall i :: 1 <= i < |parts| ==> parts[i] == parts[1..][i - 1];
      }
    }
  }

  // ----- What is left of replies of which some lines have been taken for something else -----

  /** One line taken: the elements of an array whose header it was become replies. */
  function Beheaded(rs: seq<Sent>): seq<Sent>
    requires rs != []
  {
    (if rs[0].SentArray? then Values(rs[0].items) else []) + rs[1..]
  }

  function Left(rs: seq<Sent>, n: nat): seq<Sent>
    decreases n
  {
    if n == 0 || rs == [] then rs else Left(Beheaded(rs), n - 1)
  }

  lemma {:induction false} BeheadedLines(rs: seq<Sent>)
    requires rs != []
    ensures AllLines(Beheaded(rs)) == AllLines(rs)[1..]
  {
    hide LineOf, BulkLines, Values;
    var rest := AllLines(rs[1..]);
    NothingAppended(rs[1..]);
    NothingAppended(rest);
    if rs[0].SentArray? {
      AllLinesAppend(Values(rs[0].items), rs[1..]);
      ValuesLines(rs[0].items);
      TailOfAppend([LineOf(rs[0])], BulkLines(rs[0].items));
      NothingAppended(BulkLines(rs[0].items));
    }
    TailOfAppend(PartLines(rs[0]), rest);
  }

  lemma {:induction false} DropTwice<T>(s: seq<T>, n: nat)
    requires 0 < n <= |s|
    ensures s[1..][n - 1..] == s[n..]
  {
  }

  lemma {:induction false} LeftLines(rs: seq<Sent>, n: nat)
    requires n <= |AllLines(rs)|
    ensures AllLines(Left(rs, n)) == AllLines(rs)[n..]
    decreases n
  {
    if n > 0 {
      hide AllLines, Beheaded;
      BeheadedLines(rs);
      LeftLines(Beheaded(rs), n - 1);
      DropTwice(AllLines(rs), n);
    }
  }

  lemma {:induction false} LeftWhole(rs: seq<Sent>, n: nat)
    requires WholeParts(rs)
    ensures WholeParts(Left(rs, n))
    decreases n
  {
    if n > 0 && rs != [] {
      hide NoCrlf;
      LeftWhole(Beheaded(rs), n - 1);
    }
  }

  /** Nothing is left exactly if every part was one line. */
  lemma {:induction false} LeftNone(parts: seq<Sent>)
    ensures Left(parts, |parts|) == [] <==> OneLined(parts)
  {
    hide OneLined;
    LeftLines(parts, |parts|);
    FlatLines(parts);
  }

  // ----- What is heard -----

  /** A bulk value as the client takes it: one text stands for no value. */
  function Heard(v: string): Option<string> { if v == "(nil)" then None else Some(v) }

  function HeardItems(items: seq<string>): (r: seq<Option<string>>)
    ensures |r| == |items| && forall i :: 0 <= i < |r| ==> r[i] == Heard(items[i])
  {
    seq(|items|, i requires 0 <= i < |items| => Heard(items[i]))
  }

  /** The words that begin an array pushed to a subscriber. */
  predicate PushWord(w: string) {
    w == "message" || w == "subscribe" || w == "unsubscribe"
  }

  /** An array with one of those words in front is taken for a push, any other for a reply. */
  function Arrival(items: seq<Option<string>>): Event {
    if items != [] && items[0].Some? && PushWord(items[0].value) then OnPush(Items(items)) else OnReply(Items(items))
  }

  lemma {:induction false} TaggedArrives(items: seq<Option<string>>)
    ensures Tagged(items) == Arrival(items)
  {
  }

  /** The first event of a reply. The reply of EXEC is taken for an array of as many lines as it wraps
      replies. */
  function HeardOne(r: Sent): Event {
    match r
    case SentOk(m) => OnReply(Success(m))
    case SentError(m) => OnReply(Failed("ERR " + m))
    case SentWrongType => OnReply(Failed(WRONGTYPE))
    case SentInteger(n) => OnReply(Number(Some(n)))
    case SentValue(v) => OnReply(Bulk(Heard(v)))
    case SentNil => OnReply(Bulk(None))
    case SentArray(items) => Arrival(HeardItems(items))
    case SentExec(parts) => Arrival(ParseLines(AllLines(parts)[..|parts|]))
  }

  function HeardFlat(rs: seq<Sent>): (r: seq<Event>)
    ensures |r| == |rs|
  {
    seq(|rs|, i requires 0 <= i < |rs| => HeardOne(rs[i]))
  }

  /** All events of a reply: what is left of the lines that EXEC wraps is heard as replies of its own. */
  function HeardOf(r: Sent): seq<Event> {
    [HeardOne(r)] + if r.SentExec? then HeardFlat(Left(r.parts, |r.parts|)) else []
  }

  function HeardAll(rs: seq<Sent>): seq<Event> {
    if rs == [] then [] else HeardOf(rs[0]) + HeardAll(rs[1..])
  }

  lemma {:induction false} LineHeard(st: ParserState, r: Sent)
    requires Between(st) && OneLine(r) && Whole(r)
    ensures ProcessLine(st, LineOf(r)) == (st, [HeardOne(r)])
  {
    var line := LineOf(r);
    if r.SentInteger? {
      assert line[1..] == IntText(r.n);
      ParseIntText(r.n);
    } else if r.SentError? {
      assert line[1..] == "ERR " + r.message;
    } else if r.SentValue? {
      BulkHeard(r.v);
    } else if r.SentOk? {
      assert line[1..] == r.message;
    } else if r.SentWrongType? {
      assert line[1..] == WRONGTYPE;
    }
  }

  lemma {:induction false} BulkHeard(v: string)
    ensures ParseBulkLine("$" + v) == Heard(v)
  {
    assert ("$" + v)[1..] == v && "$(nil)"[1..] == "(nil)";
  }

  lemma {:induction false} BulksHeard(items: seq<string>)
    ensures ParseLines(BulkLines(items)) == HeardItems(items)
  {
    forall i | 0 <= i < |items| ensures ParseBulkLine(BulkLines(items)[i]) == HeardItems(items)[i] {
      BulkHeard(items[i]);
    }
    LinesParse(BulkLines(items), HeardItems(items));
  }

  /** One reply that is no EXEC, in front of the buffer, is consumed and emitted. */
  lemma {:induction false} PumpOne(st: ParserState, r: Sent, rest: string)
    requires Between(st) && Whole(r) && !r.SentExec? && st.buffer == Encode(r) + rest
    ensures var after := Pump(st.(buffer := rest));
            Pump(st) == (after.0, [HeardOne(r)] + after.1)
  {
    if r.SentArray? {
      hide Pump, IndexOfCrlf, NoCrlf, Tagged, IntText, BulkLines, Bulks, Terminated, ParseLines;
      BulkNoCrlf(r.items);
      BulksTerminated(r.items);
      PumpArray(st, BulkLines(r.items), rest);
      BulksHeard(r.items);
      TaggedArrives(HeardItems(r.items));
    } else {
      hide Pump, IndexOfCrlf, NoCrlf, LineOf;
      LineNoCrlf(r);
      PumpLine(st, LineOf(r), rest);
      LineHeard(st.(buffer := rest), r);
    }
  }

  lemma {:induction false} PumpFlat(st: ParserState, rs: seq<Sent>, rest: string)
    requires Between(st) && WholeParts(rs) && st.buffer == EncodeAll(rs) + rest
    ensures var after := Pump(st.(buffer := rest));
            Pump(st) == (after.0, HeardFlat(rs) + after.1)
    decreases rs
  {
    hide Pump, Encode, HeardOne;
    if rs == [] {
      NothingAppended(rest);
      NothingAppended(Pump(st).1);
    } else {
      var tail := EncodeAll(rs[1..]) + rest;
      Associative(Encode(rs[0]), EncodeAll(rs[1..]), rest);
      PumpOne(st, rs[0], tail);
      PumpFlat(st.(buffer := tail), rs[1..], rest);
      assert HeardFlat(rs) == [HeardOne(rs[0])] + HeardFlat(rs[1..]);
      Associative([HeardOne(rs[0])], HeardFlat(rs[1..]), Pump(st.(buffer := rest)).1);
    }
  }

  lemma {:induction false} ExecEncoded(parts: seq<Sent>)
    ensures Encode(SentExec(parts)) == "*" + IntText(|parts|) + CRLF + EncodeAll(parts)
  {
    hide IntText;
    ConcatEncoded(parts);
  }

  lemma {:induction false} ConcatEncoded(parts: seq<Sent>)
    ensures Concat(seq(|parts|, i requires 0 <= i < |parts| => Encode(parts[i]))) == EncodeAll(parts)
    decreases parts
  {
    if parts != [] {
      hide Encode;
      var texts := seq(|parts|, i requires 0 <= i < |parts| => Encode(parts[i]));
      ConcatEncoded(parts[1..]);
      assert texts[1..] == seq(|parts[1..]|, i requires 0 <= i < |parts[1..]| => Encode(parts[1..][i]));
    }
  }

  /** The reply of EXEC: as many lines as it wraps replies make the array; what is left follows. */
  lemma {:induction false} PumpExec(st: ParserState, parts: seq<Sent>, rest: string)
    requires Between(st) && WholeParts(parts) && st.buffer == Encode(SentExec(parts)) + rest
    ensures var after := Pump(st.(buffer := rest));
            Pump(st) == (after.0, HeardOf(SentExec(parts)) + after.1)
  {
    hide Pump, IndexOfCrlf, IntText, Tagged, NoCrlf, Encode, AllLines, Terminated, ParseLines, WholeParts, HeardFlat;
    var n, lines, left := |parts|, AllLines(parts), Left(parts, |parts|);
    var first, more := lines[..n], lines[n..];
    ExecEncoded(parts);
    AllTerminated(parts);
    LeftLines(parts, n);
    LeftWhole(parts, n);
    AllTerminated(left);
    assert first + more == lines;
    TerminatedAppend(first, more);
    var tail := EncodeAll(left) + rest;
    var header := "*" + IntText(n) + CRLF;
    Associative(header, Terminated(first), Terminated(more));
    Associative(header + Terminated(first), Terminated(more), rest);
    PumpArray(st, first, tail);
    TaggedArrives(ParseLines(first));
    PumpFlat(st.(buffer := tail), left, rest);
    Associative([HeardOne(SentExec(parts))], HeardFlat(left), Pump(st.(buffer := rest)).1);
  }

  /** One encoded reply of any kind in front of the buffer is consumed whole. */
  lemma {:induction false} PumpReply(st: ParserState, r: Sent, rest: string)
    requires Between(st) && Whole(r) && st.buffer == Encode(r) + rest
    ensures var after := Pump(st.(buffer := rest));
            Pump(st) == (after.0, HeardOf(r) + after.1)
  {
    hide Pump, Encode, HeardOne;
    if r.SentExec? {
      hide NoCrlf;
      PumpExec(st, r.parts, rest);
    } else {
      PumpOne(st, r, rest);
      NothingAppended([HeardOne(r)]);
    }
  }

  lemma {:induction false} PumpReplies(st: ParserState, rs: seq<Sent>)
    requires Between(st) && st.buffer == EncodeAll(rs)
    requires forall i :: 0 <= i < |rs| ==> Whole(rs[i])
    ensures Pump(st) == (st.(buffer := ""), HeardAll(rs))
    decreases rs
  {
    if rs == [] {
      NothingComes(st);
    } else {
      hide Pump, Encode, HeardOf, Whole;
      PumpReply(st, rs[0], EncodeAll(rs[1..]));
      PumpReplies(st.(buffer := EncodeAll(rs[1..])), rs[1..]);
    }
  }

  lemma {:induction false} NothingComes(st: ParserState)
    requires st.buffer == ""
    ensures Pump(st) == (st, [])
  {
  }

  /** What a client hears: encode any replies without CRLF in their payloads, cut the text anywhere, feed
      the pieces; the events are those of `HeardAll`, and the parser is idle again. */
  lemma {:induction false} StreamHeard(rs: seq<Sent>, chunks: seq<string>)
    requires forall i :: 0 <= i < |rs| ==> Whole(rs[i])
    requires Concat(chunks) == EncodeAll(rs)
    ensures FeedAll(IDLE, chunks) == (IDLE, HeardAll(rs))
  {
    hide Whole, Pump, HeardAll, EncodeAll;
    FeedConcat(IDLE, chunks) by { assert IDLE.buffer == ""; }
    NothingAppended(Concat(chunks));
    PumpReplies(IDLE.(buffer := EncodeAll(rs)), rs);
  }

  lemma {:induction false} OneHeard(r: Sent)
    requires Whole(r)
    ensures Feed(IDLE, Encode(r)) == (IDLE, HeardOf(r))
  {
    hide Pump, Encode, HeardOf, Whole;
    var text := Encode(r);
    NothingAppended(text);
    PumpReply(IDLE.(buffer := text), r, "");
    NothingComes(IDLE);
    NothingAppended(HeardOf(r));
  }

  // ----- What comes through -----

  /** What the client should hear. */
  function Expected(r: Sent): Event {
    match r
    case SentValue(v) => OnReply(Bulk(Some(v)))
    case SentArray(items) =>
      var meant := Items(seq(|items|, i requires 0 <= i < |items| => Some(items[i])));
      if items != [] && PushWord(items[0]) then OnPush(meant) else OnReply(meant)
    case SentExec(parts) =>
      var meant := Items(seq(|parts|, i requires 0 <= i < |parts| => Part(parts[i])));
      if parts != [] && Part(parts[0]).Some? && PushWord(Part(parts[0]).value) then OnPush(meant) else OnReply(meant)
    case _ => HeardOne(r)
  }

  /** A reply inside an EXEC reply: its line without the type character, or nil. */
  function Part(r: Sent): Option<string> {
    if r.SentNil? then None else Some(LineOf(r)[1..])
  }

  function ExpectedAll(rs: seq<Sent>): seq<Event> {
    if rs == [] then [] else [Expected(rs[0])] + ExpectedAll(rs[1..])
  }

  /** No value reads as nil, and EXEC wraps no array with elements. */
  predicate Clean(r: Sent) {
    match r
    case SentValue(v) => v != "(nil)"
    case SentArray(items) => forall i :: 0 <= i < |items| ==> items[i] != "(nil)"
    case SentExec(parts) => OneLined(parts) && forall i :: 0 <= i < |parts| ==> Clean(parts[i])
    case _ => true
  }

  predicate CleanItem(v: string) { NoCrlf(v) && v != "(nil)" }

  lemma {:induction false} ArrivalInjective(a: seq<Option<string>>, b: seq<Option<string>>)
    ensures Arrival(a) == Arrival(b) <==> a == b
  {
  }

  lemma {:induction false} PartHeard(r: Sent)
    requires !r.SentExec? && (r.SentArray? ==> r.items == [])
    ensures ParseBulkLine(LineOf(r)) == Part(r) <==> Clean(r)
  {
    if r.SentValue? {
      BulkHeard(r.v);
      assert LineOf(r)[1..] == r.v;
    } else if !r.SentNil? {
      assert LineOf(r)[0] != '$';
      assert "$(nil)"[0] == '$';
    }
  }

  lemma {:induction false} ExecHeard(parts: seq<Sent>)
    requires WholeParts(parts) && OneLined(parts)
    ensures HeardOne(SentExec(parts)) == Expected(SentExec(parts))
            <==> forall i :: 0 <= i < |parts| ==> Clean(parts[i])
  {
    hide Part, LineOf, Clean, Whole, AllLines, ParseBulkLine, PushWord;
    FlatLines(parts);
    var lines, meant := AllLines(parts)[..|parts|], seq(|parts|, i requires 0 <= i < |parts| => Part(parts[i]));
    assert Expected(SentExec(parts)) == Arrival(meant);
    ArrivalInjective(ParseLines(lines), meant);
    forall i | 0 <= i < |parts|
      ensures |ParseLines(lines)| == |parts| && (ParseLines(lines)[i] == meant[i] <==> Clean(parts[i]))
    {
      ParseLinesAt(lines, i);
      PartHeard(parts[i]);
    }
    if parts == [] { NoLines(); }
  }

  lemma {:induction false} ArrayHeard(items: seq<string>)
    ensures HeardOne(SentArray(items)) == Expected(SentArray(items)) <==> Clean(SentArray(items))
  {
    hide PushWord;
    var meant := seq(|items|, i requires 0 <= i < |items| => Some(items[i]));
    assert Expected(SentArray(items)) == Arrival(meant);
    ArrivalInjective(HeardItems(items), meant);
    forall i | 0 <= i < |items| ensures HeardItems(items)[i] == meant[i] <==> items[i] != "(nil)" {}
    if HeardItems(items) == meant {
      forall i | 0 <= i < |items| ensures items[i] != "(nil)" {
        assert HeardItems(items)[i] == meant[i];
      }
    }
  }

  /** A reply comes through as meant if and only if it is clean, and as one event if and only if it is no
      EXEC that wraps an array with elements. */
  lemma {:induction false} HeardExactly(r: Sent)
    requires Whole(r)
    ensures HeardOf(r) == [Expected(r)] <==> Clean(r)
    ensures |HeardOf(r)| >= 1
    ensures |HeardOf(r)| == 1 <==> (r.SentExec? ==> OneLined(r.parts))
  {
    NothingAppended([HeardOne(r)]);
    match r
    case SentExec(parts) =>
      hide NoCrlf, OneLined, HeardOne, Expected, Left;
      LeftNone(parts);
      if OneLined(parts) {
        ExecHeard(parts);
      }
    case SentArray(items) => ArrayHeard(items);
    case _ =>
  }

  /** The reply stream round trip, exactly: encode any replies, cut the text anywhere, feed the pieces, and
      the replies come out as they were meant, in order, if and only if each of them is clean; whatever
      they are, there is one event a reply if and only if no EXEC wraps an array with elements. */
  lemma {:induction false} StreamRoundTrip(rs: seq<Sent>, chunks: seq<string>)
    requires forall i :: 0 <= i < |rs| ==> Whole(rs[i])
    requires Concat(chunks) == EncodeAll(rs)
    ensures FeedAll(IDLE, chunks).0 == IDLE
    ensures FeedAll(IDLE, chunks).1 == ExpectedAll(rs) <==> forall i :: 0 <= i < |rs| ==> Clean(rs[i])
    ensures |FeedAll(IDLE, chunks).1| == |rs|
            <==> forall i :: 0 <= i < |rs| && rs[i].SentExec? ==> OneLined(rs[i].parts)
  {
    hide Whole, Clean, HeardAll, FeedAll, ExpectedAll, OneLined;
    StreamHeard(rs, chunks);
    AllExactly(rs);
  }

  lemma {:induction false} AllExactly(rs: seq<Sent>)
    requires forall i :: 0 <= i < |rs| ==> Whole(rs[i])
    ensures HeardAll(rs) == ExpectedAll(rs) <==> forall i :: 0 <= i < |rs| ==> Clean(rs[i])
    ensures |HeardAll(rs)| == |rs| <==> forall i :: 0 <= i < |rs| && rs[i].SentExec? ==> OneLined(rs[i].parts)
    ensures |HeardAll(rs)| >= |rs| == |ExpectedAll(rs)|
    decreases rs
  {
    if rs != [] {
      hide Whole, Clean, HeardOf, Expected, OneLined;
      var head, tail := HeardOf(rs[0]), HeardAll(rs[1..]);
      HeardExactly(rs[0]);
      AllExactly(rs[1..]);
      CleanRuns(rs);
      if HeardAll(rs) == ExpectedAll(rs) {
        assert |head| == 1;
        assert (head + tail)[0] == head[0] && (head + tail)[1..] == tail;
        assert ([Expected(rs[0])] + ExpectedAll(rs[1..]))[1..] == ExpectedAll(rs[1..]);
        assert head == [Expected(rs[0])];
      }
    }
  }

  lemma {:induction false} CleanRuns(rs: seq<Sent>)
    requires rs != []
    ensures (forall i :: 0 <= i < |rs| ==> Clean(rs[i]))
            <==> Clean(rs[0]) && forall i :: 0 <= i < |rs[1..]| ==> Clean(rs[1..][i])
    ensures (forall i :: 0 <= i < |rs| && rs[i].SentExec? ==> OneLined(rs[i].parts))
            <==> (rs[0].SentExec? ==> OneLined(rs[0].parts))
                 && forall i :: 0 <= i < |rs[1..]| && rs[1..][i].SentExec? ==> OneLined(rs[1..][i].parts)
  {
    hide Clean, OneLined;
    forall i | 1 <= i < |rs| ensures rs[i] == rs[1..][i - 1] {}
  }

  /** The reply of EXEC, whatever it wraps, leaves the parser idle; it comes through as one event, the array
      of its parts' lines, if and only if none of the parts is an array with elements. */
  lemma {:induction false} ExecFaithful(parts: seq<Sent>)
    requires WholeParts(parts)
    ensures Feed(IDLE, Encode(SentExec(parts))) == (IDLE, HeardOf(SentExec(parts)))
    ensures |HeardOf(SentExec(parts))| == 1 <==> OneLined(parts)
  {
    hide Feed, NoCrlf, HeardOf, OneLined;
    OneHeard(SentExec(parts));
    HeardExactly(SentExec(parts));
  }

  /** One array with elements inside an EXEC reply: the client hears an array holding only the inner
      header's number, and then the inner elements as replies of their own. */
  lemma {:induction false} NestedArrayMisread(items: seq<string>)
    requires items != [] && forall i :: 0 <= i < |items| ==> NoCrlf(items[i])
    ensures Feed(IDLE, Encode(SentExec([SentArray(items)])))
         == (IDLE, [OnReply(Items([Some(IntText(|items|))]))] + HeardFlat(Values(items)))
  {
    hide Feed, NoCrlf, IntText, Arrival, HeardFlat;
    var part := SentArray(items);
    ExecFaithful([part]);
    var inner := LineOf(part);
    assert AllLines([part]) == PartLines(part) + [] == PartLines(part);
    assert AllLines([part])[..1] == [inner];
    OneElement("", inner);
    assert inner[1..] == IntText(|items|) && inner[0] == '*' && "$(nil)"[0] == '$';
    NotKeyword(|items|);
    assert Left([part], 1) == Values(items) + [] == Values(items);
  }

  lemma {:induction false} NotKeyword(n: nat)
    ensures Arrival([Some(IntText(n))]) == OnReply(Items([Some(IntText(n))]))
  {
    assert IsDigit(IntText(n)[0]);
  }

  /** A single value comes through if and only if it holds no CRLF and is not the nil marker. */
  lemma {:induction false} ValueFaithful(v: string)
    ensures Feed(IDLE, Encode(SentValue(v))).1 == [OnReply(Bulk(Some(v)))] <==> CleanItem(v)
  {
    hide Pump, Encode, NoCrlf;
    if NoCrlf(v) {
      OneHeard(SentValue(v));
      NothingAppended([HeardOne(SentValue(v))]);
    } else {
      NothingAppended(Encode(SentValue(v)));
      ValueTorn(v);
    }
  }

  /** A value with a CRLF inside ends there for the client. */
  lemma {:induction false} ValueTorn(v: string)
    requires !NoCrlf(v)
    ensures Pump(IDLE.(buffer := Encode(SentValue(v)))).1 != [OnReply(Bulk(Some(v)))]
  {
    var i := IndexOfCrlf(v).value;
    assert CrlfAt(v, i);
    FirstPiece(v, i);
    hide Pump, IndexOfCrlf, CrlfAt, NoCrlf, Encode;
    SplitAtCrlf(v, i);
    var first, rest := v[..i], v[i + 2..] + CRLF;
    ValueText(first, v[i + 2..]);
    FirstValue(IDLE.(buffer := Encode(SentValue(v))), first, rest);
  }

  lemma {:induction false} ValueText(first: string, rest: string)
    ensures Encode(SentValue(first + CRLF + rest)) == ("$" + first) + CRLF + (rest + CRLF)
  {
    Associative("$", first + CRLF, rest);
    Associative("$", first, CRLF);
    Associative(("$" + first) + CRLF, rest, CRLF);
  }

  lemma {:induction false} SplitAtCrlf(v: string, i: nat)
    requires CrlfAt(v, i)
    ensures i + 2 <= |v| && v == v[..i] + CRLF + v[i + 2..] && v[..i] != v
  {
  }

  /** The first event of a bulk line. */
  lemma {:induction false} FirstValue(st: ParserState, v: string, rest: string)
    requires Between(st) && NoCrlf(v) && st.buffer == ("$" + v) + CRLF + rest
    ensures Pump(st).1 != [] && Pump(st).1[0] == OnReply(Bulk(Heard(v)))
  {
    Prefixed('$', v);
    PumpLine(st, "$" + v, rest);
    hide Pump, IndexOfCrlf, ParseBulkLine;
    BulkHeard(v);
  }

  lemma {:induction false} FirstPiece(v: string, i: nat)
    requires i <= |v| && forall j :: j < i ==> !CrlfAt(v, j)
    ensures NoCrlf(v[..i])
  {
    forall j ensures !CrlfAt(v[..i], j) {
      if j < i { assert !CrlfAt(v, j); }
    }
  }

  /** Pushes told apart: an array with elements arrives as a push if and only if its first item is one of
      the three words, and the reply of EXEC if and only if the first line it wraps reads as one of them
      behind its type character; anything else arrives as a reply. Every item is there in either case. */
  lemma {:induction false} PushExactly(items: seq<string>, parts: seq<Sent>)
    requires Whole(SentArray(items)) && WholeParts(parts)
    ensures var e := Feed(IDLE, ArrayText(items)).1;
            && |e| == 1 && (e[0].OnPush? || e[0].OnReply?) && e[0].reply == Items(HeardItems(items))
            && (e[0].OnPush? <==> |items| > 0 && (items[0] == "message" || items[0] == "subscribe"
                                                  || items[0] == "unsubscribe"))
    ensures var e := Feed(IDLE, Encode(SentExec(parts))).1;
            && |e| >= 1 && (e[0].OnPush? || e[0].OnReply?)
            && (e[0].OnPush? <==> |parts| > 0 && (LineOf(parts[0])[1..] == "message"
                                                  || LineOf(parts[0])[1..] == "subscribe"
                                                  || LineOf(parts[0])[1..] == "unsubscribe"))
  {
    hide Feed, NoCrlf, Whole, LineOf, ParseBulkLine, ParseLines, ArrayText;
    OneHeard(SentArray(items));
    NothingAppended([HeardOne(SentArray(items))]);
    ExecFaithful(parts);
    if parts != [] {
      var first := AllLines(parts)[..|parts|];
      ParseLinesAt(first, 0);
      LineNoCrlf(parts[0]);
      assert first[0] == LineOf(parts[0]);
      WordBehind(LineOf(parts[0]));
    } else {
      NoLines();
    }
  }

  lemma {:induction false} WordBehind(line: string)
    requires line != ""
    ensures PushWord(line[1..]) <==> ParseBulkLine(line).Some? && PushWord(ParseBulkLine(line).value)
  {
    assert "$(nil)"[1..] == "(nil)";
  }

  /** Lines that no server sends: an empty one is passed over, one of no known kind is reported, a number that
      cannot be read is none, and an array whose length cannot be read takes every line that follows. */
  lemma {:induction false} StrayLine(line: string, rest: string)
    requires NoCrlf(line) && NoCrlf([':'] + rest) && NoCrlf(['*'] + rest) && ParseInt(rest) == None
    ensures line == "" ==> Feed(IDLE, line + CRLF) == (IDLE, [])
    ensures line != "" && line[0] !in "+-:$*" ==> Feed(IDLE, line + CRLF) == (IDLE, [OnError(line[0])])
    ensures Feed(IDLE, [':'] + rest + CRLF) == (IDLE, [OnReply(Number(None))])
    ensures Feed(IDLE, ['*'] + rest + CRLF) == (ParserState("", true, None, []), [])
  {
    hide Pump, IndexOfCrlf, ParseInt, NoCrlf;
    assert ([':'] + rest)[1..] == rest && (['*'] + rest)[1..] == rest;
    LineAlone(IDLE, line);
    LineAlone(IDLE, [':'] + rest);
    LineAlone(IDLE, ['*'] + rest);
  }

  lemma {:induction false} LineAlone(st: ParserState, line: string)
    requires NoCrlf(line) && st.buffer == ""
    ensures Feed(st, line + CRLF) == ProcessLine(st, line)
  {
    hide IndexOfCrlf, NoCrlf, ProcessLine;
    NothingAppended(line + CRLF);
    PumpLine(st.(buffer := line + CRLF), line, "");
    BufferKept(st, line);
    NothingComes(ProcessLine(st, line).0);
    NothingAppended(ProcessLine(st, line).1);
  }

  /** Inside an array the first character of a line does not matter, and an empty line is an empty item. */
  lemma {:induction false} StrayItem(line: string)
    requires NoCrlf(line)
    ensures Feed(ParserState("", true, Some(1), []), line + CRLF)
         == (IDLE, [Arrival([if line == "$(nil)" then None else if line == "" then Some("") else Some(line[1..])])])
  {
    hide IndexOfCrlf, NoCrlf, Tagged, Arrival, Pump;
    var st := ParserState("", true, Some(1), []);
    LineAlone(st, line);
    assert st.arrayItems + [ParseBulkLine(line)] == [ParseBulkLine(line)];
    TaggedArrives([ParseBulkLine(line)]);
    assert line == "" ==> ParseBulkLine(line) == Some("");
  }

  /** What a number is read from: whitespace in front and anything behind its digits are passed over, and
      there may be a sign; a sign alone is no number. */
  lemma {:induction false} NumberRead(before: string, sign: string, n: nat, after: string)
    requires sign in ["", "-", "+"] && forall i :: 0 <= i < |before| ==> IsSpace(before[i])
    requires after == "" || !IsDigit(after[0])
    ensures ParseInt(before + sign + Decimal(n) + after) == Some(if sign == "-" then -(n as int) else n)
    ensures sign != "" ==> ParseInt(before + sign + after) == None
  {
    hide DigitsValue, DigitsEnd, Decimal, ParseInt, IsSpace;
    var d := Decimal(n);
    DecimalValue(n);
    DigitsStop(d, after);
    assert (d + after)[..|d|] == d && (d + after)[0] == d[0];
    NumberBehind(before, sign, d + after);
    Associative(before + sign, d, after);
    if sign != "" {
      DigitsStop("", after);
      assert "" + after == after;
      NumberBehind(before, sign, after);
    }
  }

  lemma {:induction false} NumberBehind(before: string, sign: string, rest: string)
    requires sign in ["", "-", "+"] && forall i :: 0 <= i < |before| ==> IsSpace(before[i])
    requires sign == "" ==> rest != "" && IsDigit(rest[0])
    ensures var n := DigitsEnd(rest);
            ParseInt(before + sign + rest)
            == if n == 0 then None
               else Some(if sign == "-" then -(DigitsValue(rest[..n]) as int) else DigitsValue(rest[..n]))
  {
    hide DigitsValue, DigitsEnd, SpaceEnd;
    var t := sign + rest;
    assert sign != "" ==> t[1..] == rest;
    assert sign == "" ==> t == rest;
    assert t[0] == if sign == "" then rest[0] else sign[0];
    NoSpace(t[0]);
    SpacesEnd(before, t);
    Associative(before, sign, rest);
    assert (before + t)[|before|..] == t;
  }

  lemma {:induction false} NoSpace(c: char)
    requires IsDigit(c) || c == '-' || c == '+'
    ensures !IsSpace(c)
  {
  }

  lemma {:induction false} SpacesEnd(before: string, rest: string)
    requires (forall i :: 0 <= i < |before| ==> IsSpace(before[i])) && rest != "" && !IsSpace(rest[0])
    ensures SpaceEnd(before + rest) == |before|
  {
    hide IsSpace;
    if before == "" {
      assert before + rest == rest;
    } else {
      SpacesEnd(before[1..], rest);
      assert (before + rest)[1..] == before[1..] + rest;
    }
  }

  lemma {:induction false} DigitsStop(d: string, after: string)
    requires AllDigits(d) && (after == "" || !IsDigit(after[0]))
    ensures DigitsEnd(d + after) == |d|
  {
    if d == "" {
      assert d + after == after;
    } else {
      DigitsStop(d[1..], after);
      assert (d + after)[1..] == d[1..] + after;
    }
  }

  /** What the server pushes to subscribers arrives as a push, with its channel and its payload. */
  lemma {:induction false} PushesArrive(channel: string, message: string, count: nat)
    requires CleanItem(channel) && CleanItem(message)
    ensures Feed(IDLE, PushMessage(channel, message))
         == (IDLE, [OnPush(Items([Some("message"), Some(channel), Some(message)]))])
    ensures Feed(IDLE, Subscribed(channel, count))
         == (IDLE, [OnPush(Items([Some("subscribe"), Some(channel), Some(Decimal(count))]))])
    ensures Feed(IDLE, Unsubscribed(channel, count))
         == (IDLE, [OnPush(Items([Some("unsubscribe"), Some(channel), Some(Decimal(count))]))])
  {
    hide Feed, ArrayText, NoCrlf;
    PlainWords(count);
    ArrayArrives("message", channel, message);
    ArrayArrives("subscribe", channel, Decimal(count));
    ArrayArrives("unsubscribe", channel, Decimal(count));
  }

  lemma {:induction false} PlainWords(count: nat)
    ensures CleanItem("message") && CleanItem("subscribe") && CleanItem("unsubscribe") && CleanItem(Decimal(count))
  {
    hide CleanItem, NoCrlf;
    NoCrlfWord("message");
    NoCrlfWord("subscribe");
    NoCrlfWord("unsubscribe");
    NoCrlfWord(Decimal(count));
  }

  lemma {:induction false} NoCrlfWord(s: string)
    requires s != "" && s[0] != '(' && forall i :: 0 <= i < |s| ==> s[i] != '\r'
    ensures CleanItem(s)
  {
    DigitsNoCrlf(s);
  }

  lemma {:induction false} ArrayArrives(kind: string, channel: string, payload: string)
    requires CleanItem(kind) && CleanItem(channel) && CleanItem(payload)
    ensures Feed(IDLE, ArrayText([kind, channel, payload]))
         == (IDLE, [Arrival([Some(kind), Some(channel), Some(payload)])])
  {
    hide Feed, ArrayText, NoCrlf;
    var items := [kind, channel, payload];
    OneHeard(SentArray(items));
    assert HeardItems(items) == [Some(kind), Some(channel), Some(payload)];
    NothingAppended([HeardOne(SentArray(items))]);
  }
}
