/** Decimal numbers and whitespace-separated tokens, as the protocol writes and reads them. */
module Text {
  import opened Options

  // ----- Decimal numbers -----

  function DigitChar(d: nat): char
    requires d < 10
  {
    '0' + d as char
  }

  predicate IsDigit(c: char) { '0' <= c <= '9' }

  function DigitOf(c: char): nat
    requires IsDigit(c)
  {
    (c - '0') as nat
  }

  function Decimal(n: nat): (r: string)
    ensures r != [] && forall i :: 0 <= i < |r| ==> IsDigit(r[i])
  {
    if n < 10 then [DigitChar(n)] else Decimal(n / 10) + [DigitChar(n % 10)]
  }

  /** `${n}` for an integer. */
  function IntText(n: int): string {
    if n < 0 then "-" + Decimal(-n) else Decimal(n)
  }

  predicate AllDigits(s: string) {
    forall i :: 0 <= i < |s| ==> IsDigit(s[i])
  }

  function DigitsValue(s: string): nat
    requires AllDigits(s)
  {
    if s == [] then 0 else DigitsValue(s[..|s| - 1]) * 10 + DigitOf(s[|s| - 1])
  }

  lemma {:induction false} DecimalValue(n: nat)
    ensures DigitsValue(Decimal(n)) == n
  {
    if n >= 10 {
      DecimalValue(n / 10);
      assert Decimal(n)[..|Decimal(n)| - 1] == Decimal(n / 10);
    } else {
      assert Decimal(n)[..0] == [];
    }
  }

  /** The upper bound on a TTL in seconds. */
  const MAX_TTL_SECONDS: int := 9_999_999_999

  const MAX_SAFE_INTEGER: int := 9_007_199_254_740_991

  /** A strictly positive decimal within the TTL bound. */
  function ParsePositiveInt(token: string): Option<int> {
    if token == [] || !AllDigits(token) then None
    else
      var n := DigitsValue(token);
      if n < 1 || n > MAX_TTL_SECONDS then None else Some(n)
  }

  /** A decimal with an optional leading minus, within the exactly representable integers. */
  function ParseSignedInt(token: string): Option<int> {
    var minus := token != [] && token[0] == '-';
    var digits := if minus then token[1..] else token;
    if digits == [] || !AllDigits(digits) then None
    else
      var n: int := if minus then -(DigitsValue(digits) as int) else DigitsValue(digits);
      if n < -MAX_SAFE_INTEGER || n > MAX_SAFE_INTEGER then None else Some(n)
  }

  /** Reading back a printed TTL. */
  lemma {:induction false} PositiveRoundTrip(n: nat)
    requires 1 <= n <= MAX_TTL_SECONDS
    ensures ParsePositiveInt(Decimal(n)) == Some(n)
  {
    DecimalValue(n);
  }

  lemma {:induction false} SignedRoundTrip(n: int)
    requires -MAX_SAFE_INTEGER <= n <= MAX_SAFE_INTEGER
    ensures ParseSignedInt(IntText(n)) == Some(n)
  {
    DecimalValue(if n < 0 then -n else n);
    if n < 0 {
      assert IntText(n)[1..] == Decimal(-n);
    } else {
      assert IsDigit(Decimal(n)[0]);
    }
  }

  /** The decimal text of a number, digit by digit. */
  lemma {:induction false} DecimalSpelled(n: nat, d: nat)
    requires d < 10
    ensures Decimal(d) == ["0123456789"[d]]
    ensures n > 0 ==> Decimal(10 * n + d) == Decimal(n) + ["0123456789"[d]]
    ensures n > 0 ==> IntText(-(n as int)) == "-" + Decimal(n)
  {
    assert (10 * n + d) / 10 == n && (10 * n + d) % 10 == d;
  }

  // ----- Tokens -----

  /** The characters that `\s` matches and `trim` strips. */
  predicate IsSpace(c: char) {
    || '\t' <= c <= '\r'
    || c == ' ' || c == '\U{A0}' || c == '\U{1680}'
    || '\U{2000}' <= c <= '\U{200A}'
    || c == '\U{2028}' || c == '\U{2029}' || c == '\U{202F}' || c == '\U{205F}'
    || c == '\U{3000}' || c == '\U{FEFF}'
  }

  /** A token: not empty, no whitespace inside. */
  predicate IsToken(t: string) {
    t != [] && forall i :: 0 <= i < |t| ==> !IsSpace(t[i])
  }

  /** The length of the longest space-free prefix. */
  function WordEnd(s: string): (n: nat)
    ensures n <= |s|
    ensures forall i :: 0 <= i < n ==> !IsSpace(s[i])
    ensures n < |s| ==> IsSpace(s[n])
  {
    if s == [] || IsSpace(s[0]) then 0 else 1 + WordEnd(s[1..])
  }

  /** The length of the longest all-space prefix. */
  function SpaceEnd(s: string): (n: nat)
    ensures n <= |s|
    ensures forall i :: 0 <= i < n ==> IsSpace(s[i])
    ensures n < |s| ==> !IsSpace(s[n])
  {
    if s == [] || !IsSpace(s[0]) then 0 else 1 + SpaceEnd(s[1..])
  }

  function TrimEnd(s: string): string {
    if s != [] && IsSpace(s[|s| - 1]) then TrimEnd(s[..|s| - 1]) else s
  }

  function Trim(s: string): string {
    TrimEnd(s[SpaceEnd(s)..])
  }

  /** Trimming takes the whitespace at both ends and nothing else. */
  lemma {:induction false} TrimExactly(s: string) returns (before: string, after: string)
    ensures s == before + Trim(s) + after
    ensures forall i :: 0 <= i < |before| ==> IsSpace(before[i])
    ensures forall i :: 0 <= i < |after| ==> IsSpace(after[i])
    ensures Trim(s) != "" ==> !IsSpace(Trim(s)[0]) && !IsSpace(Trim(s)[|Trim(s)| - 1])
  {
    hide IsSpace;
    var n := SpaceEnd(s);
    before := s[..n];
    after := TrimEndExactly(s[n..]);
    assert s == s[..n] + s[n..];
    if Trim(s) != "" {
      assert s[n..][0] == s[n];
      assert Trim(s)[0] == s[n];
    }
    Regroup(before, Trim(s), after);
  }

  lemma {:induction false} Regroup(a: string, b: string, c: string)
    ensures a + (b + c) == a + b + c
  {
  }

  lemma {:induction false} TrimEndExactly(s: string) returns (after: string)
    ensures s == TrimEnd(s) + after && forall i :: 0 <= i < |after| ==> IsSpace(after[i])
    ensures TrimEnd(s) != "" ==> !IsSpace(TrimEnd(s)[|TrimEnd(s)| - 1]) && TrimEnd(s)[0] == s[0]
  {
    hide IsSpace;
    after := "";
    if s != [] && IsSpace(s[|s| - 1]) {
      var more := TrimEndExactly(s[..|s| - 1]);
      after := more + [s[|s| - 1]];
      assert s == s[..|s| - 1] + [s[|s| - 1]];
    }
  }

  /** `split(/\s+/)`: the possibly empty pieces between the runs of whitespace. */
  function SplitSpaces(s: string): seq<string>
    decreases |s|
  {
    var n := WordEnd(s);
    if n == |s| then [s]
    else [s[..n]] + SplitSpaces(s[n + SpaceEnd(s[n..])..])
  }

  function DropEmpty(pieces: seq<string>): seq<string> {
    if pieces == [] then []
    else (if pieces[0] == [] then [] else [pieces[0]]) + DropEmpty(pieces[1..])
  }

  /** Tokenising as the parser does it: trim, split at whitespace, drop empty pieces. */
  function Tokens(line: string): seq<string> {
    DropEmpty(SplitSpaces(Trim(line)))
  }

  /** What it amounts to: the maximal space-free runs, from left to right. */
  function Words(s: string): (r: seq<string>)
    ensures forall i :: 0 <= i < |r| ==> IsToken(r[i])
    decreases |s|
  {
    if s == [] then []
    else if IsSpace(s[0]) then Words(s[1..])
    else
      var n := WordEnd(s);
      [s[..n]] + Words(s[n..])
  }

  lemma {:induction false} WordsSkipSpaces(s: string, n: nat)
    requires n <= |s| && forall i :: 0 <= i < n ==> IsSpace(s[i])
    ensures Words(s) == Words(s[n..])
    decreases n
  {
    if n > 0 {
      WordsSkipSpaces(s[1..], n - 1);
      assert s[1..][n - 1..] == s[n..];
    } else {
      assert s[0..] == s;
    }
  }

  lemma {:induction false} SplitIsWords(s: string)
    ensures DropEmpty(SplitSpaces(s)) == Words(s)
    decreases |s|
  {
    hide IsSpace, Words, DropEmpty, WordEnd, SpaceEnd;
    var n := WordEnd(s);
    FirstWord(s);
    if n == |s| {
      assert s[..n] == s && s[n..] == [];
      NoWords();
      DropEmptyHead(s, []);
      assert [s] + [] == [s];
    } else {
      var rest := s[n + SpaceEnd(s[n..])..];
      assert IsSpace(s[n]) && SpaceEnd(s[n..]) > 0;
      SplitIsWords(rest);
      WordsSkipSpaces(s[n..], SpaceEnd(s[n..]));
      assert s[n..][SpaceEnd(s[n..])..] == rest;
      DropEmptyHead(s[..n], SplitSpaces(rest));
    }
  }

  lemma {:induction false} NoWords()
    ensures Words("") == [] && DropEmpty([]) == []
  {
  }

  lemma {:induction false} DropEmptyHead(piece: string, pieces: seq<string>)
    ensures DropEmpty([piece] + pieces) == (if piece == [] then [] else [piece]) + DropEmpty(pieces)
  {
  }

  /** The words of a line are its leading word, if it starts with one, and the words after it. */
  lemma {:induction false} FirstWord(s: string)
    ensures var n := WordEnd(s);
            Words(s) == (if n == 0 then [] else [s[..n]]) + Words(s[n..])
  {
  }

  /** Trailing whitespace makes no word. */
  lemma {:induction false} WordsDropLast(s: string)
    requires s != [] && IsSpace(s[|s| - 1])
    ensures Words(s) == Words(s[..|s| - 1])
  {
    hide IsSpace, WordEnd;
    var t := s[..|s| - 1];
    assert t + [s[|s| - 1]] + "" == s && Words("") == [];
    WordsApart(t, s[|s| - 1], "");
    assert Words(t) + [] == Words(t);
  }

  lemma {:induction false} WordEndUnique(s: string, n: nat)
    requires n <= |s| && (forall i :: 0 <= i < n ==> !IsSpace(s[i])) && (n < |s| ==> IsSpace(s[n]))
    ensures WordEnd(s) == n
  {
  }

  lemma {:induction false} WordsTrimEnd(s: string)
    ensures Words(TrimEnd(s)) == Words(s)
  {
    if s != [] && IsSpace(s[|s| - 1]) {
      WordsTrimEnd(s[..|s| - 1]);
      WordsDropLast(s);
    }
  }

  lemma {:induction false} WordsTrim(s: string)
    ensures Words(Trim(s)) == Words(s)
  {
    WordsTrimEnd(s[SpaceEnd(s)..]);
    WordsSkipSpaces(s, SpaceEnd(s));
  }

  /** Whitespace keeps the words on its two sides apart. */
  lemma {:induction false} WordsApart(a: string, c: char, b: string)
    requires IsSpace(c)
    ensures Words(a + [c] + b) == Words(a) + Words(b)
    decreases |a|
  {
    hide IsSpace, WordEnd, Words;
    var s := a + [c] + b;
    if a == [] {
      assert s == [c] + b && s[1..] == b;
      SpaceInFront(s);
      NoWords();
      assert [] + Words(b) == Words(b);
    } else if IsSpace(a[0]) {
      WordsApart(a[1..], c, b);
      assert s[1..] == a[1..] + [c] + b;
      SpaceInFront(s);
      SpaceInFront(a);
    } else {
      var n := WordEnd(a);
      WordEndUnique(s, n);
      FirstWord(s);
      FirstWord(a);
      assert s[..n] == a[..n] && s[n..] == a[n..] + [c] + b;
      WordsApart(a[n..], c, b);
      assert [a[..n]] + (Words(a[n..]) + Words(b)) == [a[..n]] + Words(a[n..]) + Words(b);
    }
  }

  lemma {:induction false} SpaceInFront(s: string)
    requires s != [] && IsSpace(s[0])
    ensures Words(s) == Words(s[1..])
  {
  }

  /** Trimming, splitting and filtering yields exactly the words of the line. */
  lemma {:induction false} TokensAreWords(line: string)
    ensures Tokens(line) == Words(line)
    ensures Tokens(Trim(line)) == Tokens(line)
  {
    SplitIsWords(Trim(line));
    WordsTrim(line);
    SplitIsWords(Trim(Trim(line)));
    WordsTrim(Trim(line));
  }

  /** Tokens joined by single spaces. */
  function Join(ts: seq<string>): string {
    if ts == [] then "" else if |ts| == 1 then ts[0] else ts[0] + " " + Join(ts[1..])
  }

  ghost predicate AllTokens(ts: seq<string>) {
    forall i :: 0 <= i < |ts| ==> IsToken(ts[i])
  }

  lemma {:induction false} WordsJoin(ts: seq<string>)
    requires AllTokens(ts)
    ensures Words(Join(ts)) == ts
  {
    if ts == [] {
    } else {
      var t, rest := ts[0], Join(ts[1..]);
      WordsJoin(ts[1..]);
      if |ts| == 1 {
        WordEndUnique(t, |t|);
        assert t[..|t|] == t && t[|t|..] == "";
      } else {
        var s := t + " " + rest;
        assert s[|t|] == ' ';
        WordEndUnique(s, |t|);
        assert s[..|t|] == t;
        assert s[|t|..] == " " + rest;
        assert (" " + rest)[1..] == rest;
      }
    }
  }

  /** A printed line reads back as its tokens. */
  lemma {:induction false} TokensJoin(ts: seq<string>)
    requires AllTokens(ts)
    ensures Tokens(Join(ts)) == ts
  {
    TokensAreWords(Join(ts));
    WordsJoin(ts);
  }

  lemma {:induction false} JoinAppend(a: seq<string>, b: seq<string>)
    requires a != [] && b != []
    ensures Join(a + b) == Join(a) + " " + Join(b)
  {
    if |a| == 1 {
      assert (a + b)[1..] == b;
    } else {
      JoinAppend(a[1..], b);
      assert (a + b)[1..] == a[1..] + b;
    }
  }

  /** A line that starts and ends with a token has nothing to trim. */
  lemma {:induction false} TrimJoin(ts: seq<string>)
    requires AllTokens(ts)
    ensures Trim(Join(ts)) == Join(ts)
  {
    if ts != [] {
      JoinEnds(ts);
      assert SpaceEnd(Join(ts)) == 0;
      assert Join(ts)[0..] == Join(ts);
    }
  }

  lemma {:induction false} JoinEnds(ts: seq<string>)
    requires AllTokens(ts) && ts != []
    ensures Join(ts) != "" && !IsSpace(Join(ts)[0]) && !IsSpace(Join(ts)[|Join(ts)| - 1])
  {
    if |ts| > 1 {
      JoinEnds(ts[1..]);
    }
  }
}
