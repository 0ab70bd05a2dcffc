/** How commands may be spelled: letter by letter and number by number, without the parser's own terms. */
module Spelling {
  import opened Options
  import opened Sequences
  import opened Text
  import opened StoreSpec
  import opened CommandParser

  // ----- Letters -----

  /** `a` is the capital letter `b` or its small letter. */
  predicate SameLetter(a: char, b: char) {
    'A' <= b <= 'Z' && (a == b || a as int == b as int + 32)
  }

  predicate SameWord(a: string, b: string) {
    |a| == |b| && forall i :: 0 <= i < |a| ==> SameLetter(a[i], b[i])
  }

  predicate Ascii(a: string) {
    forall i :: 0 <= i < |a| ==> a[i] < '\U{80}'
  }

  lemma {:induction false} LetterUpper(a: char, b: char)
    requires 'A' <= b <= 'Z' && a < '\U{80}'
    ensures UpperChar(a) == [b] <==> SameLetter(a, b)
    ensures |UpperChar(a)| == 1
  {
  }

  /** A word in ASCII is upper-cased to a word of capitals if and only if they agree letter by letter. */
  lemma {:induction false} UpperSpelled(a: string, b: string)
    requires Ascii(a) && forall i :: 0 <= i < |b| ==> 'A' <= b[i] <= 'Z'
    ensures Upper(a) == b <==> SameWord(a, b)
  {
    if a == "" {
      assert Upper(a) == "";
    } else {
      LetterUpper(a[0], if b == "" then 'A' else b[0]);
      var head, rest := UpperChar(a[0]), Upper(a[1..]);
      assert (head + rest)[0] == head[0] && (head + rest)[1..] == rest;
      if b != "" {
        UpperSpelled(a[1..], b[1..]);
        if SameWord(a, b) {
          assert SameLetter(a[0], b[0]);
          assert SameWord(a[1..], b[1..]) by {
            forall i | 0 <= i < |a[1..]| ensures SameLetter(a[1..][i], b[1..][i]) {
              assert SameLetter(a[i + 1], b[i + 1]);
            }
          }
          assert b == [b[0]] + b[1..];
        }
        if Upper(a) == b {
          assert b[1..] == rest && head == [b[0]];
          forall i | 0 <= i < |a| ensures SameLetter(a[i], b[i]) {
            if i > 0 { assert SameLetter(a[1..][i - 1], b[1..][i - 1]); }
          }
        }
      }
    }
  }

  lemma {:induction false} SpelledAscii(a: string, b: string)
    requires SameWord(a, b)
    ensures Ascii(a) && forall i :: 0 <= i < |b| ==> 'A' <= b[i] <= 'Z'
  {
    forall i | 0 <= i < |b| ensures a[i] < '\U{80}' && 'A' <= b[i] <= 'Z' { assert SameLetter(a[i], b[i]); }
  }

  // ----- Numerals -----

  predicate Padded(a: string, b: string) {
    |a| >= |b| && a[|a| - |b|..] == b && forall i :: 0 <= i < |a| - |b| ==> a[i] == '0'
  }

  /** `a` is the numeral `b`, perhaps with zeros in front of its digits. */
  predicate SameNumeral(a: string, b: string) {
    if b != "" && b[0] == '-' then a != "" && a[0] == '-' && Padded(a[1..], b[1..]) else Padded(a, b)
  }

  lemma {:induction false} PaddedValue(a: string, b: string)
    requires Padded(a, b) && AllDigits(b)
    ensures AllDigits(a) && DigitsValue(a) == DigitsValue(b)
    decreases |a|
  {
    var z := |a| - |b|;
    forall i | 0 <= i < |a| ensures IsDigit(a[i]) {
      if i >= z { assert a[i] == b[i - z]; }
    }
    if b == "" {
      ZerosValue(a);
    } else {
      var a1, b1 := a[..|a| - 1], b[..|b| - 1];
      assert a1[|a1| - |b1|..] == b1;
      PaddedValue(a1, b1);
      assert a[|a| - 1] == b[|b| - 1];
    }
  }

  lemma {:induction false} ZerosValue(a: string)
    requires AllDigits(a) && forall i :: 0 <= i < |a| ==> a[i] == '0'
    ensures DigitsValue(a) == 0
  {
    if a != "" {
      ZerosValue(a[..|a| - 1]);
    }
  }

  lemma {:induction false} DecimalDigits(n: nat)
    ensures AllDigits(Decimal(n)) && Decimal(n) != "" && Decimal(n)[0] != '-'
  {
    assert IsDigit(Decimal(n)[0]);
  }

  lemma {:induction false} PositiveSpelled(a: string, n: int)
    requires SameNumeral(a, IntText(n)) && 1 <= n <= 9_999_999_999
    ensures ParsePositiveInt(a) == Some(n)
  {
    DecimalDigits(n);
    DecimalValue(n);
    PaddedValue(a, Decimal(n));
  }

  lemma {:induction false} SignedSpelled(a: string, n: int)
    requires SameNumeral(a, IntText(n)) && -9_007_199_254_740_991 <= n <= 9_007_199_254_740_991
    ensures ParseSignedInt(a) == Some(n)
  {
    var m := if n < 0 then -n else n;
    DecimalDigits(m);
    DecimalValue(m);
    if n < 0 {
      assert IntText(n)[1..] == Decimal(m);
      PaddedValue(a[1..], Decimal(m));
    } else {
      PaddedValue(a, Decimal(n));
      assert IsDigit(a[0]);
    }
  }

  // ----- Lines -----

  /** The i-th token of a line may stand for that of the printed command: the command word and EX in any
      case, a number with leading zeros, anything else as it is. */
  predicate Stands(c: Command, i: nat, token: string)
    requires i < |Print(c)|
  {
    var printed := Print(c)[i];
    if i == 0 || (c.OnData? && c.act.Set? && i == 3) then SameWord(token, printed)
    else if c.OnData? && ((c.act.Set? && i == 4) || (c.act.Expire? && i == 2) || (c.act.LRange? && i >= 2))
    then SameNumeral(token, printed)
    else token == printed
  }

  predicate Spells(tokens: seq<string>, c: Command) {
    |tokens| == |Print(c)| && forall i :: 0 <= i < |tokens| ==> Stands(c, i, tokens[i])
  }

  lemma {:induction false} WordSpelled(token: string, word: Word)
    requires !word.Unknown? && SameWord(token, NameOf(word))
    ensures WordOf(Upper(token)) == word
  {
    hide NameOf, WordOf, Upper, SameWord;
    SpelledAscii(token, NameOf(word));
    UpperSpelled(token, NameOf(word));
    NameIsWord(word);
  }

  lemma {:induction false} ParseWords(line: string, tokens: seq<string>)
    requires Tokens(line) == tokens && tokens != []
    ensures Parse(line) == ParseTokens(WordOf(Upper(tokens[0])), tokens)
  {
  }

  /** Case, leading zeros and spacing do not matter: every line whose words spell a command that can be
      said parses to that command. */
  lemma {:induction false} SpelledParses(c: Command, line: string)
    requires Sayable(c) && Spells(Tokens(line), c)
    ensures Parse(line) == Parsed(c)
  {
    hide Parse, ParseTokens, WordOf, NameOf, Upper, IsToken, Arguments, Tokens, SameWord, SameNumeral, Sayable;
    var tokens := Tokens(line);
    SayableWord(c);
    assert Stands(c, 0, tokens[0]);
    WordSpelled(tokens[0], WordFor(c));
    ParseWords(line, tokens);
    SpelledArguments(tokens, c);
  }

  lemma {:induction false} SpelledArguments(tokens: seq<string>, c: Command)
    requires Sayable(c) && Spells(tokens, c)
    ensures ParseTokens(WordFor(c), tokens) == Parsed(c)
  {
    hide IsToken, Decimal, DigitsValue, NameOf, Flatten, Upper, IntText, ParseSignedInt, ParsePositiveInt;
    hide SameWord, SameNumeral;
    if c.OnData? && (c.act.Set? || c.act.Expire? || c.act.LRange?) {
      SpecialSpelled(tokens, c.key, c.act);
    } else {
      SameRest(tokens, c);
      ParseArguments(c);
      HeadIgnored(WordFor(c), tokens, Print(c));
    }
  }

  lemma {:induction false} SameRest(tokens: seq<string>, c: Command)
    requires Spells(tokens, c) && !(c.OnData? && (c.act.Set? || c.act.Expire? || c.act.LRange?))
    ensures |tokens| == |Print(c)| && tokens[1..] == Print(c)[1..]
  {
    hide NameOf, Arguments, SameWord, SameNumeral;
    forall i | 1 <= i < |tokens| ensures tokens[i] == Print(c)[i] {
      assert Stands(c, i, tokens[i]);
    }
  }

  /** The command word itself does not matter once it is recognised. */
  lemma {:induction false} HeadIgnored(word: Word, a: seq<string>, b: seq<string>)
    requires |a| == |b| && a != [] && a[1..] == b[1..] && !word.Unknown?
    ensures ParseTokens(word, a) == ParseTokens(word, b)
  {
    hide Upper, ParsePositiveInt, ParseSignedInt, Pairs;
    forall i | 1 <= i < |a| ensures a[i] == b[i] {
      assert a[1..][i - 1] == b[1..][i - 1];
    }
    if |a| >= 2 {
      assert a[2..] == a[1..][1..] && b[2..] == b[1..][1..];
    }
  }

  lemma {:induction false} SpecialSpelled(tokens: seq<string>, k: string, act: Act)
    requires Sayable(OnData(k, act)) && Spells(tokens, OnData(k, act))
    requires act.Set? || act.Expire? || act.LRange?
    ensures ParseTokens(WordFor(OnData(k, act)), tokens) == Parsed(OnData(k, act))
  {
    hide IsToken, Decimal, DigitsValue, NameOf, Upper, IntText, ParseSignedInt, ParsePositiveInt;
    hide SameWord, SameNumeral;
    var c := OnData(k, act);
    assert Print(c)[1] == k && Stands(c, 1, tokens[1]);
    match act
    case Set(x, ttl) =>
      assert Print(c)[2] == x && Stands(c, 2, tokens[2]);
      if ttl.Some? {
        assert Print(c)[3] == "EX" && Print(c)[4] == IntText(ttl.value);
        assert Stands(c, 3, tokens[3]) && Stands(c, 4, tokens[4]);
        SpelledAscii(tokens[3], "EX");
        UpperSpelled(tokens[3], "EX");
        PositiveSpelled(tokens[4], ttl.value);
      }
    case Expire(seconds) =>
      assert Print(c)[2] == IntText(seconds) && Stands(c, 2, tokens[2]);
      PositiveSpelled(tokens[2], seconds);
    case LRange(start, stop) =>
      assert Print(c)[2] == IntText(start) && Print(c)[3] == IntText(stop);
      assert Stands(c, 2, tokens[2]) && Stands(c, 3, tokens[3]);
      SignedSpelled(tokens[2], start);
      SignedSpelled(tokens[3], stop);
  }

  // ----- Every command, spelled out -----

  /** The lines of the commands for keys and strings. */
  lemma {:induction false} KeyLines(k: string)
    requires IsToken(k)
    ensures Parse("GET" + " " + k) == Parsed(OnData(k, Act.Get))
    ensures Parse("DEL" + " " + k) == Parsed(OnData(k, Del))
    ensures Parse("EXISTS" + " " + k) == Parsed(OnData(k, Exists))
  {
    hide IsToken, Parse, Join;
    OneArgument(OnData(k, Act.Get), k);
    OneArgument(OnData(k, Del), k);
    OneArgument(OnData(k, Exists), k);
  }

  lemma {:induction false} MoreKeyLines(k: string, x: string)
    requires IsToken(k) && IsToken(x)
    ensures Parse("TTL" + " " + k) == Parsed(OnData(k, Ttl))
    ensures Parse("PERSIST" + " " + k) == Parsed(OnData(k, Persist))
    ensures Parse("KEYS" + " " + k) == Parsed(ListKeys(k))
    ensures Parse("SET" + " " + (k + " " + x)) == Parsed(OnData(k, Act.Set(x, None)))
  {
    hide IsToken, Parse, Join;
    OneArgument(OnData(k, Ttl), k);
    OneArgument(OnData(k, Persist), k);
    OneArgument(ListKeys(k), k);
    TwoArguments(OnData(k, Act.Set(x, None)), k, x);
  }

  /** Those for lists. */
  lemma {:induction false} ListLines(k: string)
    requires IsToken(k)
    ensures Parse("LPOP" + " " + k) == Parsed(OnData(k, LPop))
    ensures Parse("RPOP" + " " + k) == Parsed(OnData(k, RPop))
    ensures Parse("LLEN" + " " + k) == Parsed(OnData(k, LLen))
  {
    hide IsToken, Parse, Join;
    OneArgument(OnData(k, LPop), k);
    OneArgument(OnData(k, RPop), k);
    OneArgument(OnData(k, LLen), k);
  }

  lemma {:induction false} PushLines(k: string, x: string)
    requires IsToken(k) && IsToken(x)
    ensures Parse("LPUSH" + " " + (k + " " + x)) == Parsed(OnData(k, LPush([x])))
    ensures Parse("RPUSH" + " " + (k + " " + x)) == Parsed(OnData(k, RPush([x])))
  {
    hide IsToken, Parse, Join;
    TwoArguments(OnData(k, LPush([x])), k, x);
    TwoArguments(OnData(k, RPush([x])), k, x);
  }

  /** Those for hashes. */
  lemma {:induction false} HashLines(k: string)
    requires IsToken(k)
    ensures Parse("HGETALL" + " " + k) == Parsed(OnData(k, HGetAll))
    ensures Parse("HLEN" + " " + k) == Parsed(OnData(k, HLen))
  {
    hide IsToken, Parse, Join;
    OneArgument(OnData(k, HGetAll), k);
    OneArgument(OnData(k, HLen), k);
  }

  lemma {:induction false} OneFieldLines(k: string, f: string)
    requires IsToken(k) && IsToken(f)
    ensures Parse("HGET" + " " + (k + " " + f)) == Parsed(OnData(k, HGet(f)))
    ensures Parse("HDEL" + " " + (k + " " + f)) == Parsed(OnData(k, HDel([f])))
  {
    hide IsToken, Parse, Join;
    TwoArguments(OnData(k, HGet(f)), k, f);
    TwoArguments(OnData(k, HDel([f])), k, f);
  }

  lemma {:induction false} FieldLine(k: string, f: string, x: string)
    requires IsToken(k) && IsToken(f) && IsToken(x)
    ensures Parse("HSET" + " " + (k + " " + (f + " " + x))) == Parsed(OnData(k, HSet([(f, x)])))
  {
    hide IsToken, Parse, Join;
    var c := OnData(k, HSet([(f, x)]));
    assert Flatten([(f, x)]) == [f, x];
    assert Print(c) == ["HSET", k, f, x];
    FourJoined("HSET", k, f, x);
    PrintParses(c);
  }

  /** Those for the server. */
  lemma {:induction false} ServerLines(k: string)
    requires IsToken(k)
    ensures Parse("BGSAVE") == Parsed(BgSave) && Parse("BGREWRITEAOF") == Parsed(BgRewriteAof)
    ensures Parse("MULTI") == Parsed(Multi) && Parse("EXEC") == Parsed(Exec) && Parse("DISCARD") == Parsed(Discard)
    ensures Parse("AUTH" + " " + k) == Parsed(Auth(k))
  {
    hide IsToken, Parse, Join;
    NoArgument(BgSave);
    NoArgument(BgRewriteAof);
    TransactionWords();
    OneArgument(Auth(k), k);
  }

  lemma {:induction false} SubscriptionLines(k: string, x: string)
    requires IsToken(k) && IsToken(x)
    ensures Parse("UNSUBSCRIBE") == Parsed(Unsubscribe([]))
    ensures Parse("UNSUBSCRIBE" + " " + k) == Parsed(Unsubscribe([k]))
    ensures Parse("SUBSCRIBE" + " " + k) == Parsed(Subscribe([k]))
    ensures Parse("PUBLISH" + " " + (k + " " + x)) == Parsed(Publish(k, x))
  {
    hide IsToken, Parse, Join;
    NoArgument(Unsubscribe([]));
    OneArgument(Unsubscribe([k]), k);
    OneArgument(Subscribe([k]), k);
    TwoArguments(Publish(k, x), k, x);
  }

  lemma {:induction false} UnsubscribeLine()
    ensures Parse("UNSUBSCRIBE") == Parsed(Unsubscribe([]))
  {
    hide Parse, Join;
    NoArgument(Unsubscribe([]));
  }

  lemma {:induction false} NoArgument(c: Command)
    requires Sayable(c) && Arguments(c) == []
    ensures Parse(NameOf(WordFor(c))) == Parsed(c)
  {
    hide Parse, NameOf, WordFor, Arguments, Sayable;
    PrintParses(c);
    TwoJoined(NameOf(WordFor(c)), "");
    assert Print(c) == [NameOf(WordFor(c))];
  }

  lemma {:induction false} OneArgument(c: Command, a: string)
    requires Sayable(c) && Arguments(c) == [a]
    ensures Parse(NameOf(WordFor(c)) + " " + a) == Parsed(c)
  {
    hide Parse, NameOf, WordFor, Arguments, Sayable;
    PrintParses(c);
    TwoJoined(NameOf(WordFor(c)), a);
    assert Print(c) == [NameOf(WordFor(c)), a];
  }

  lemma {:induction false} TwoArguments(c: Command, a: string, b: string)
    requires Sayable(c) && Arguments(c) == [a, b]
    ensures Parse(NameOf(WordFor(c)) + " " + (a + " " + b)) == Parsed(c)
  {
    hide Parse, NameOf, WordFor, Arguments, Sayable;
    PrintParses(c);
    var ts := [NameOf(WordFor(c)), a, b];
    TwoJoined(a, b);
    assert Print(c) == ts && ts[1..] == [a, b];
  }

  lemma {:induction false} TwoJoined(a: string, b: string)
    ensures Join([a]) == a && Join([a, b]) == a + " " + b
  {
    assert [a, b][1..] == [b];
  }

  lemma {:induction false} FourJoined(a: string, b: string, c: string, d: string)
    ensures Join([a, b, c, d]) == a + " " + (b + " " + (c + " " + d))
  {
    TwoJoined(c, d);
    assert [a, b, c, d][1..] == [b, c, d] && [b, c, d][1..] == [c, d];
  }

  // ----- Bounds and separators -----

  /** A TTL is accepted exactly from 1 to 9999999999 seconds, in EXPIRE and in SET. */
  lemma {:induction false} TtlBound(k: string, x: string, n: nat)
    requires IsToken(k) && IsToken(x)
    ensures Parse(Join(["EXPIRE", k, Decimal(n)])) == Parsed(OnData(k, Expire(n))) <==> 1 <= n <= 9_999_999_999
    ensures Parse(Join(["EXPIRE", k, Decimal(n)])).Parsed? <==> 1 <= n <= 9_999_999_999
    ensures Parse(Join(["SET", k, x, "EX", Decimal(n)])) == Parsed(OnData(k, Act.Set(x, Some(n))))
            <==> 1 <= n <= 9_999_999_999
    ensures Parse(Join(["SET", k, x, "EX", Decimal(n)])).Parsed? <==> 1 <= n <= 9_999_999_999
  {
    hide IsToken, WordOf, Upper, Parse, Join, Decimal, DigitsValue;
    PrintedWords();
    DecimalIsToken(n);
    DecimalDigits(n);
    DecimalValue(n);
    ParseJoined(["EXPIRE", k, Decimal(n)]);
    ParseJoined(["SET", k, x, "EX", Decimal(n)]);
  }

  /** A bound of LRANGE is accepted exactly within the integers that a double represents exactly. */
  lemma {:induction false} RangeBound(k: string, n: int)
    requires IsToken(k)
    ensures Parse(Join(["LRANGE", k, IntText(n), "0"])) == Parsed(OnData(k, LRange(n, 0)))
            <==> -9_007_199_254_740_991 <= n <= 9_007_199_254_740_991
    ensures Parse(Join(["LRANGE", k, IntText(n), "0"])).Parsed?
            <==> -9_007_199_254_740_991 <= n <= 9_007_199_254_740_991
  {
    hide IsToken, WordOf, Upper, Parse, Join, ParseSignedInt, IntText;
    NameIsWord(LRANGE);
    IntIsToken(n);
    IntIsToken(0);
    assert IntText(0) == "0" by { ZeroText(); }
    NumeralValue(n);
    NumeralValue(0);
    ParseJoined(["LRANGE", k, IntText(n), "0"]);
  }

  lemma {:induction false} ZeroText()
    ensures IntText(0) == "0"
  {
  }

  lemma {:induction false} NumeralValue(n: int)
    ensures ParseSignedInt(IntText(n))
         == if -9_007_199_254_740_991 <= n <= 9_007_199_254_740_991 then Some(n) else None
  {
    var m := if n < 0 then -n else n;
    DecimalDigits(m);
    DecimalValue(m);
    if n < 0 { assert IntText(n)[1..] == Decimal(m); }
  }

  /** The characters that separate the words of a line. */
  predicate Separator(c: char) {
    c in "\t\n\U{B}\U{C}\r \U{A0}\U{1680}" || '\U{2000}' <= c <= '\U{200A}'
    || c in "\U{2028}\U{2029}\U{202F}\U{205F}\U{3000}\U{FEFF}"
  }

  lemma {:induction false} SeparatorIsSpace(c: char)
    ensures Separator(c) <==> IsSpace(c)
  {
  }

  /** A character between command word and key makes them two words if and only if it is one of those. */
  lemma {:induction false} Separates(k: string, c: char)
    requires IsToken(k)
    ensures Parse("GET" + [c] + k) == Parsed(OnData(k, Act.Get)) <==> Separator(c)
  {
    hide IsToken, WordOf, Upper, Parse, Join, Words, Separator;
    SeparatorIsSpace(c);
    var line := "GET" + [c] + k;
    TokensAreWords(line);
    if IsSpace(c) {
      WordsApart("GET", c, k);
      assert AllTokens(["GET"]) && AllTokens([k]) by { NameIsWord(GET); }
      TwoJoined("GET", k);
      TwoJoined(k, k);
      WordsJoin(["GET"]);
      WordsJoin([k]);
      assert ["GET"] + [k] == ["GET", k];
      NameIsWord(GET);
      ParseWords(line, ["GET", k]);
    } else {
      OneWordLine(k, c);
      TwoJoined(line, k);
      WordsJoin([line]);
      ParseWords(line, [line]);
      OneTokenNoData(WordOf(Upper(line)), [line]);
    }
  }

  lemma {:induction false} OneWordLine(k: string, c: char)
    requires IsToken(k) && !IsSpace(c)
    ensures IsToken("GET" + [c] + k)
  {
  }

  lemma {:induction false} OneTokenNoData(word: Word, tokens: seq<string>)
    requires |tokens| == 1
    ensures ParseTokens(word, tokens).Parsed? ==> !ParseTokens(word, tokens).command.OnData?
  {
  }

  // ----- Letters that are not ASCII -----

  /** The characters that command words may be written with: letters, dotless i, long s and the two
      ligatures of s and t. */
  predicate WordLetter(c: char) {
    'A' <= c <= 'Z' || 'a' <= c <= 'z' || c == '\U{131}' || c == '\U{17F}' || c == '\U{FB05}' || c == '\U{FB06}'
  }

  lemma {:induction false} UpperSplit(a: string, i: nat)
    requires i < |a|
    ensures Upper(a) == Upper(a[..i]) + UpperChar(a[i]) + Upper(a[i + 1..])
  {
    hide UpperChar;
    if i == 0 {
      assert a[..0] == "" && UpperChar(a[0]) == "" + UpperChar(a[0]);
    } else {
      UpperSplit(a[1..], i - 1);
      assert a[..i][1..] == a[1..][..i - 1] && a[1..][i..] == a[i + 1..];
      Associative(UpperChar(a[0]), Upper(a[1..][..i - 1]), UpperChar(a[i]));
      Associative(UpperChar(a[0]), Upper(a[1..][..i - 1]) + UpperChar(a[i]), Upper(a[i + 1..]));
    }
  }

  /** No command word holds a double s, or an f before another f, an i or an l. */
  predicate NoLigature(name: string) {
    forall i :: 0 <= i < |name| - 1 ==>
      !(name[i] == 'S' && name[i + 1] == 'S') && (name[i] == 'F' ==> name[i + 1] !in ['F', 'I', 'L'])
  }

  lemma {:induction false} NamesNoLigature(word: Word)
    requires !word.Unknown?
    ensures NoLigature(NameOf(word))
  {
    hide NoLigature, NameOf;
    match word
    case SET | GET | DEL | EXPIRE | EXISTS | TTL | PERSIST | KEYS => KeysNoLigature(word);
    case BGSAVE | BGREWRITEAOF => DiskNoLigature(word);
    case SUBSCRIBE | UNSUBSCRIBE => SubscriptionNoLigature(word);
    case PUBLISH | MULTI | EXEC | DISCARD | AUTH => LastServerNoLigature(word);
    case _ => ContainersNoLigature(word);
  }

  lemma {:induction false} KeysNoLigature(word: Word)
    requires word.SET? || word.GET? || word.DEL? || word.EXPIRE? || word.EXISTS? || word.TTL?
          || word.PERSIST? || word.KEYS?
    ensures NoLigature(NameOf(word))
  {
  }

  lemma {:induction false} ContainersNoLigature(word: Word)
    requires word.LPUSH? || word.LPOP? || word.LRANGE? || word.RPUSH? || word.RPOP? || word.LLEN?
          || word.HSET? || word.HGET? || word.HDEL? || word.HGETALL? || word.HLEN?
    ensures NoLigature(NameOf(word))
  {
  }

  lemma {:induction false} DiskNoLigature(word: Word)
    requires word.BGSAVE? || word.BGREWRITEAOF?
    ensures NoLigature(NameOf(word))
  {
  }

  lemma {:induction false} SubscriptionNoLigature(word: Word)
    requires word.SUBSCRIBE? || word.UNSUBSCRIBE?
    ensures NoLigature(NameOf(word))
  {
  }

  lemma {:induction false} LastServerNoLigature(word: Word)
    requires word.PUBLISH? || word.MULTI? || word.EXEC? || word.DISCARD? || word.AUTH?
    ensures NoLigature(NameOf(word))
  {
  }

  predicate Strange(u: string) {
    u != "" && (!('A' <= u[0] <= 'Z') || (|u| > 1 && u[0] == 'S' == u[1])
                || (|u| > 1 && u[0] == 'F' && u[1] in ['F', 'I', 'L']))
  }

  lemma {:induction false} StrangeUpper(c: char)
    requires !WordLetter(c)
    ensures Strange(UpperChar(c))
  {
  }

  lemma {:induction false} StrangeInside(before: string, u: string, after: string)
    requires Strange(u)
    ensures var name := before + u + after;
            NoLigature(name) ==> exists i :: 0 <= i < |name| && !('A' <= name[i] <= 'Z')
  {
    var name, n := before + u + after, |before|;
    assert name[n] == u[0];
    assert |u| > 1 ==> name[n + 1] == u[1];
  }

  /** A word with any other character in it is no command word. */
  lemma {:induction false} StrangeWord(a: string, i: nat)
    requires i < |a| && !WordLetter(a[i])
    ensures WordOf(Upper(a)).Unknown?
  {
    hide WordOf, NameOf, Upper, UpperChar, WordLetter, Strange, NoLigature;
    UpperSplit(a, i);
    StrangeUpper(a[i]);
    StrangeInside(Upper(a[..i]), UpperChar(a[i]), Upper(a[i + 1..]));
    if !WordOf(Upper(a)).Unknown? {
      WordIsName(Upper(a));
      UpperNames(WordOf(Upper(a)));
      NamesNoLigature(WordOf(Upper(a)));
    }
  }

  /** Dotless i and a ligature do make a command word, */
  lemma {:induction false} DotlessWord()
    ensures Upper("ex\U{131}\U{FB06}s") == "EXISTS" && Upper("ex\U{131}\U{FB05}s") == "EXISTS"
  {
    UpperPair("ex\U{131}", "\U{FB06}s");
    UpperPair("ex\U{131}", "\U{FB05}s");
  }

  /** and so does long s. */
  lemma {:induction false} LongWord()
    ensures Upper("\U{17F}et") == "SET"
  {
  }

  lemma {:induction false} UpperPair(a: string, b: string)
    ensures Upper(a + b) == Upper(a) + Upper(b)
  {
    hide UpperChar;
    if a == "" {
      assert a + b == b && Upper(a) + Upper(b) == Upper(b);
    } else {
      UpperPair(a[1..], b);
      assert (a + b)[1..] == a[1..] + b;
      Associative(UpperChar(a[0]), Upper(a[1..]), Upper(b));
    }
  }

  // ----- What is refused, and how -----

  /** `small` is the word of capitals `name` in small letters. */
  predicate Small(small: string, name: string) {
    |small| == |name| && forall i :: 0 <= i < |name| ==> small[i] as int == name[i] as int + 32
  }

  /** `message` complains about the number of arguments, and names the command in small letters. */
  ghost predicate WrongNumber(word: Word, message: string) {
    exists small :: Small(small, NameOf(word))
                    && message == "wrong number of arguments for '" + small + "' command"
  }

  /** Every complaint of the parser: an empty line, a word that is none, a number that is none, EX missing,
      and in every other case the number of arguments. */
  lemma {:induction false} Refused(line: string)
    requires Parse(line).Malformed?
    ensures var tokens, message := Tokens(line), Parse(line).message;
            if tokens == [] then message == "empty command"
            else
              match WordOf(Upper(tokens[0]))
              case Unknown => message == "unknown command '" + tokens[0] + "'"
              case SET =>
                if |tokens| != 5 then WrongNumber(SET, message)
                else if SameWord(tokens[3], "EX") then message == "EX seconds must be a positive integer"
                else message == "syntax error near '" + tokens[3] + "' (expected EX)"
              case EXPIRE =>
                if |tokens| == 3 then message == "seconds must be a positive integer"
                else WrongNumber(EXPIRE, message)
              case LRANGE =>
                if |tokens| == 4 then message == "start and stop must be integers"
                else WrongNumber(LRANGE, message)
              case word => WrongNumber(word, message)
  {
    hide WordOf, Tokens, Upper, ParsePositiveInt, ParseSignedInt, SameWord, Small, NameOf;
    var tokens := Tokens(line);
    if tokens != [] && !WordOf(Upper(tokens[0])).Unknown? {
      var word := WordOf(Upper(tokens[0]));
      match word
      case SET =>
        FirstKeyComplaints(SET, tokens);
        if |tokens| == 5 { ExWord(tokens[3]); }
      case GET | DEL | EXPIRE => FirstKeyComplaints(word, tokens);
      case EXISTS | TTL | PERSIST | KEYS => LastKeyComplaints(word, tokens);
      case LPUSH | RPUSH | LRANGE => PushComplaints(word, tokens);
      case LPOP | RPOP | LLEN => ListComplaints(word, tokens);
      case HSET | HGET | HDEL => FieldComplaints(word, tokens);
      case HGETALL | HLEN => HashComplaints(word, tokens);
      case BGSAVE | BGREWRITEAOF => FirstServerComplaints(word, tokens);
      case SUBSCRIBE | UNSUBSCRIBE | PUBLISH => MessageComplaints(word, tokens);
      case MULTI | EXEC => QueueComplaints(word, tokens);
      case DISCARD | AUTH => LastServerComplaints(word, tokens);
    }
  }

  /** The only way to spell EX is in ASCII. */
  lemma {:induction false} ExWord(a: string)
    ensures Upper(a) == "EX" <==> SameWord(a, "EX")
  {
    hide Upper, UpperChar, SameWord;
    if Ascii(a) {
      UpperSpelled(a, "EX");
    } else {
      var i :| 0 <= i < |a| && a[i] >= '\U{80}';
      UpperSplit(a, i);
      StrangeHead(a[i]);
      assert Upper(a)[|Upper(a[..i])|] == UpperChar(a[i])[0];
      assert UpperChar(a[i])[0] in Upper(a);
      if SameWord(a, "EX") { SpelledAscii(a, "EX"); }
    }
  }

  lemma {:induction false} StrangeHead(c: char)
    requires c >= '\U{80}'
    ensures UpperChar(c) != "" && UpperChar(c)[0] !in ['E', 'X']
  {
  }

  /** Whatever `ParseTokens` complains about but numbers and EX, it names the word in small letters. */
  ghost predicate Complains(word: Word, tokens: seq<string>)
    requires tokens != []
  {
    var r := ParseTokens(word, tokens);
    || (word.SET? && |tokens| == 5)
    || (word.EXPIRE? && |tokens| == 3)
    || (word.LRANGE? && |tokens| == 4)
    || (r.Malformed? ==> WrongNumber(word, r.message))
  }

  lemma {:induction false} FirstKeyComplaints(word: Word, tokens: seq<string>)
    requires tokens != [] && (word.SET? || word.GET? || word.DEL? || word.EXPIRE?)
    ensures Complains(word, tokens)
  {
    hide ParsePositiveInt, ParseSignedInt, Upper;
    match word
    case SET => assert Small("set", "SET");
    case GET => assert Small("get", "GET");
    case DEL => assert Small("del", "DEL");
    case EXPIRE => assert Small("expire", "EXPIRE");
  }

  lemma {:induction false} LastKeyComplaints(word: Word, tokens: seq<string>)
    requires tokens != [] && (word.EXISTS? || word.TTL? || word.PERSIST? || word.KEYS?)
    ensures Complains(word, tokens)
  {
    hide ParsePositiveInt, ParseSignedInt, Upper;
    match word
    case EXISTS => assert Small("exists", "EXISTS");
    case TTL => assert Small("ttl", "TTL");
    case PERSIST => assert Small("persist", "PERSIST");
    case KEYS => assert Small("keys", "KEYS");
  }

  lemma {:induction false} PushComplaints(word: Word, tokens: seq<string>)
    requires tokens != [] && (word.LPUSH? || word.RPUSH? || word.LRANGE?)
    ensures Complains(word, tokens)
  {
    hide ParsePositiveInt, ParseSignedInt, Upper;
    match word
    case LPUSH => assert Small("lpush", "LPUSH");
    case RPUSH => assert Small("rpush", "RPUSH");
    case LRANGE => assert Small("lrange", "LRANGE");
  }

  lemma {:induction false} ListComplaints(word: Word, tokens: seq<string>)
    requires tokens != [] && (word.LPOP? || word.RPOP? || word.LLEN?)
    ensures Complains(word, tokens)
  {
    hide ParsePositiveInt, ParseSignedInt, Upper;
    match word
    case LPOP => assert Small("lpop", "LPOP");
    case RPOP => assert Small("rpop", "RPOP");
    case LLEN => assert Small("llen", "LLEN");
  }

  lemma {:induction false} FieldComplaints(word: Word, tokens: seq<string>)
    requires tokens != [] && (word.HSET? || word.HGET? || word.HDEL?)
    ensures Complains(word, tokens)
  {
    hide ParsePositiveInt, ParseSignedInt, Upper;
    match word
    case HSET => assert Small("hset", "HSET");
    case HGET => assert Small("hget", "HGET");
    case HDEL => assert Small("hdel", "HDEL");
  }

  lemma {:induction false} HashComplaints(word: Word, tokens: seq<string>)
    requires tokens != [] && (word.HGETALL? || word.HLEN?)
    ensures Complains(word, tokens)
  {
    hide ParsePositiveInt, ParseSignedInt, Upper;
    match word
    case HGETALL => assert Small("hgetall", "HGETALL");
    case HLEN => assert Small("hlen", "HLEN");
  }

  lemma {:induction false} FirstServerComplaints(word: Word, tokens: seq<string>)
    requires tokens != [] && (word.BGSAVE? || word.BGREWRITEAOF?)
    ensures Complains(word, tokens)
  {
    hide ParsePositiveInt, ParseSignedInt, Upper;
    match word
    case BGSAVE => assert Small("bgsave", "BGSAVE");
    case BGREWRITEAOF => assert Small("bgrewriteaof", "BGREWRITEAOF");
  }

  lemma {:induction false} MessageComplaints(word: Word, tokens: seq<string>)
    requires tokens != [] && (word.SUBSCRIBE? || word.UNSUBSCRIBE? || word.PUBLISH?)
    ensures Complains(word, tokens)
  {
    hide ParsePositiveInt, ParseSignedInt, Upper;
    match word
    case SUBSCRIBE => assert Small("subscribe", "SUBSCRIBE");
    case UNSUBSCRIBE => assert Small("unsubscribe", "UNSUBSCRIBE");
    case PUBLISH => assert Small("publish", "PUBLISH");
  }

  lemma {:induction false} QueueComplaints(word: Word, tokens: seq<string>)
    requires tokens != [] && (word.MULTI? || word.EXEC?)
    ensures Complains(word, tokens)
  {
    hide ParsePositiveInt, ParseSignedInt, Upper;
    match word
    case MULTI => assert Small("multi", "MULTI");
    case EXEC => assert Small("exec", "EXEC");
  }

  lemma {:induction false} LastServerComplaints(word: Word, tokens: seq<string>)
    requires tokens != [] && (word.DISCARD? || word.AUTH?)
    ensures Complains(word, tokens)
  {
    hide ParsePositiveInt, ParseSignedInt, Upper;
    match word
    case DISCARD => assert Small("discard", "DISCARD");
    case AUTH => assert Small("auth", "AUTH");
  }
}
