/** The wire format of replies: every reply is one CRLF-terminated line, except arrays, which are a
    header line and one line per element. */
module Replies {
  import opened Sequences
  import opened Text

  const CRLF := "\r\n"

  function Ok(message: string): string { "+" + message + CRLF }

  function Value(v: string): string { "$" + v + CRLF }

  function Nil(): string { "$(nil)" + CRLF }

  function Integer(n: int): string { ":" + IntText(n) + CRLF }

  function Error(message: string): string { "-ERR " + message + CRLF }

  const WRONGTYPE := "WRONGTYPE Operation against a key" + " holding the wrong kind of value"

  function WrongType(): string { "-" + WRONGTYPE + CRLF }

  function Concat(parts: seq<string>): string {
    if parts == [] then "" else parts[0] + Concat(parts[1..])
  }

  function Bulks(items: seq<string>): string {
    if items == [] then "" else Value(items[0]) + Bulks(items[1..])
  }

  /** A header with the number of elements, then the elements as bulk lines. */
  function ArrayText(items: seq<string>): string {
    "*" + IntText(|items|) + CRLF + Bulks(items)
  }

  /** A header with the number of replies, then the replies as they are. */
  function RawArrayText(replies: seq<string>): string {
    "*" + IntText(|replies|) + CRLF + Concat(replies)
  }

  lemma {:induction false} ConcatAppend(a: seq<string>, b: seq<string>)
    ensures Concat(a + b) == Concat(a) + Concat(b)
  {
    if a == [] {
      assert a + b == b;
    } else {
      ConcatAppend(a[1..], b);
      TailOfAppend(a, b);
      Associative(a[0], Concat(a[1..]), Concat(b));
    }
  }

  lemma {:induction false} BulksAppend(a: seq<string>, x: string)
    ensures Bulks(a + [x]) == Bulks(a) + Value(x)
  {
    if a == [] {
      assert a + [x] == [x];
      assert Bulks([]) == "";
    } else {
      BulksAppend(a[1..], x);
      TailOfAppend(a, [x]);
      Associative(Value(a[0]), Bulks(a[1..]), Value(x));
    }
  }

  method Array(items: seq<string>) returns (out: string)
    ensures out == ArrayText(items)
  {
    out := "*" + IntText(|items|) + CRLF;
    var i := 0;
    while i < |items|
      invariant 0 <= i <= |items|
      invariant out == "*" + IntText(|items|) + CRLF + Bulks(items[..i])
    {
      assert items[..i + 1] == items[..i] + [items[i]];
      BulksAppend(items[..i], items[i]);
      out := out + Value(items[i]);
      i := i + 1;
    }
    assert items[..i] == items;
  }

  method RawArray(replies: seq<string>) returns (out: string)
    ensures out == RawArrayText(replies)
  {
    out := "*" + IntText(|replies|) + CRLF;
    var i := 0;
    while i < |replies|
      invariant 0 <= i <= |replies|
      invariant out == "*" + IntText(|replies|) + CRLF + Concat(replies[..i])
    {
      assert replies[..i + 1] == replies[..i] + [replies[i]];
      ConcatAppend(replies[..i], [replies[i]]);
      assert Concat([replies[i]]) == replies[i];
      out := out + replies[i];
      i := i + 1;
    }
    assert replies[..i] == replies;
  }

  function Subscribed(channel: string, count: nat): string {
    ArrayText(["subscribe", channel, Decimal(count)])
  }

  function Unsubscribed(channel: string, count: nat): string {
    ArrayText(["unsubscribe", channel, Decimal(count)])
  }

  function PushMessage(channel: string, message: string): string {
    ArrayText(["message", channel, message])
  }
}
