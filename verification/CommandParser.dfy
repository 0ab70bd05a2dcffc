/** One protocol line becomes one command, or a parse error. */
module CommandParser {
  import opened Options
  import opened Text
  import opened StoreSpec

  datatype Command =
    | OnData(key: string, act: Act)
    | ListKeys(pattern: string)
    | BgSave
    | BgRewriteAof
    | Subscribe(channels: seq<string>)
    | Unsubscribe(channels: seq<string>)
    | Publish(channel: string, message: string)
    | Multi
    | Exec
    | Discard
    | Auth(password: string)

  datatype ParseResult = Parsed(command: Command) | Malformed(message: string)

  /** The characters whose upper case is ASCII: the letters, and the few others (dotless i, long s,
      sharp s and the Latin ligatures) that become ASCII letters. The upper case of any other
      character is not ASCII, like the character, and no command word holds either. */
  function UpperChar(c: char): string {
    if 'a' <= c <= 'z' then [c - 'a' + 'A']
    else match c
      case '\U{131}' => "I"
      case '\U{17F}' => "S"
      case '\U{DF}' => "SS"
      case '\U{FB00}' => "FF"
      case '\U{FB01}' => "FI"
      case '\U{FB02}' => "FL"
      case '\U{FB03}' => "FFI"
      case '\U{FB04}' => "FFL"
      case '\U{FB05}' => "ST"
      case '\U{FB06}' => "ST"
      case _ => [c]
  }

  function Upper(s: string): string {
    if s == [] then [] else UpperChar(s[0]) + Upper(s[1..])
  }

  function ArityError(name: string): ParseResult {
    Malformed("wrong number of arguments for '" + name + "' command")
  }

  /** The command words. */
  datatype Word =
    | SET | GET | DEL | EXPIRE | LPUSH | LPOP | LRANGE | HSET | HGET | EXISTS | TTL | PERSIST | KEYS
    | RPUSH | RPOP | LLEN | HDEL | HGETALL | HLEN | BGSAVE | BGREWRITEAOF | SUBSCRIBE | UNSUBSCRIBE
    | PUBLISH | MULTI | EXEC | DISCARD | AUTH | Unknown

  /** The word of a name, looked up among the words for keys, for containers, and for the server. */
  function WordOf(name: string): Word {
    var k, c := KeyWordOf(name), ContainerWordOf(name);
    if !k.Unknown? then k else if !c.Unknown? then c else ServerWordOf(name)
  }

  function KeyWordOf(name: string): Word {
    if name == "SET" then SET
    else if name == "GET" then GET
    else if name == "DEL" then DEL
    else if name == "EXPIRE" then EXPIRE
    else if name == "EXISTS" then EXISTS
    else if name == "TTL" then TTL
    else if name == "PERSIST" then PERSIST
    else if name == "KEYS" then KEYS
    else Unknown
  }

  function ContainerWordOf(name: string): Word {
    if name == "LPUSH" then LPUSH
    else if name == "LPOP" then LPOP
    else if name == "LRANGE" then LRANGE
    else if name == "RPUSH" then RPUSH
    else if name == "RPOP" then RPOP
    else if name == "LLEN" then LLEN
    else if name == "HSET" then HSET
    else if name == "HGET" then HGET
    else if name == "HDEL" then HDEL
    else if name == "HGETALL" then HGETALL
    else if name == "HLEN" then HLEN
    else Unknown
  }

  function ServerWordOf(name: string): Word {
    if name == "BGSAVE" then BGSAVE
    else if name == "BGREWRITEAOF" then BGREWRITEAOF
    else if name == "SUBSCRIBE" then SUBSCRIBE
    else if name == "UNSUBSCRIBE" then UNSUBSCRIBE
    else if name == "PUBLISH" then PUBLISH
    else if name == "MULTI" then MULTI
    else if name == "EXEC" then EXEC
    else if name == "DISCARD" then DISCARD
    else if name == "AUTH" then AUTH
    else Unknown
  }

  function Parse(line: string): ParseResult {
    var tokens := Tokens(line);
    if tokens == [] then Malformed("empty command") else ParseTokens(WordOf(Upper(tokens[0])), tokens)
  }

  function ParseTokens(word: Word, tokens: seq<string>): ParseResult
    requires tokens != []
  {
    match word
    case SET => ParseSet(tokens)
    case GET => OneKey(tokens, "get", Act.Get)
    case DEL => OneKey(tokens, "del", Act.Del)
    case EXPIRE =>
      if |tokens| != 3 then ArityError("expire")
      else
        var seconds := ParsePositiveInt(tokens[2]);
        if seconds.None? then Malformed("seconds must be a positive integer")
        else Parsed(OnData(tokens[1], Expire(seconds.value)))
    case LPUSH => if |tokens| < 3 then ArityError("lpush") else Parsed(OnData(tokens[1], LPush(tokens[2..])))
    case LPOP => OneKey(tokens, "lpop", Act.LPop)
    case LRANGE =>
      if |tokens| != 4 then ArityError("lrange")
      else
        var start, stop := ParseSignedInt(tokens[2]), ParseSignedInt(tokens[3]);
        if start.None? || stop.None? then Malformed("start and stop must be integers")
        else Parsed(OnData(tokens[1], LRange(start.value, stop.value)))
    case HSET => HsetResult(tokens)
    case HGET => if |tokens| != 3 then ArityError("hget") else Parsed(OnData(tokens[1], HGet(tokens[2])))
    case EXISTS => OneKey(tokens, "exists", Act.Exists)
    case TTL => OneKey(tokens, "ttl", Act.Ttl)
    case PERSIST => OneKey(tokens, "persist", Act.Persist)
    case KEYS => if |tokens| != 2 then ArityError("keys") else Parsed(ListKeys(tokens[1]))
    case RPUSH => if |tokens| < 3 then ArityError("rpush") else Parsed(OnData(tokens[1], RPush(tokens[2..])))
    case RPOP => OneKey(tokens, "rpop", Act.RPop)
    case LLEN => OneKey(tokens, "llen", Act.LLen)
    case HDEL => if |tokens| < 3 then ArityError("hdel") else Parsed(OnData(tokens[1], HDel(tokens[2..])))
    case HGETALL => OneKey(tokens, "hgetall", Act.HGetAll)
    case HLEN => OneKey(tokens, "hlen", Act.HLen)
    case BGSAVE => if |tokens| != 1 then ArityError("bgsave") else Parsed(BgSave)
    case BGREWRITEAOF => if |tokens| != 1 then ArityError("bgrewriteaof") else Parsed(BgRewriteAof)
    case SUBSCRIBE => if |tokens| < 2 then ArityError("subscribe") else Parsed(Subscribe(tokens[1..]))
    case UNSUBSCRIBE => Parsed(Unsubscribe(tokens[1..]))
    case PUBLISH => if |tokens| != 3 then ArityError("publish") else Parsed(Publish(tokens[1], tokens[2]))
    case MULTI => if |tokens| != 1 then ArityError("multi") else Parsed(Multi)
    case EXEC => if |tokens| != 1 then ArityError("exec") else Parsed(Exec)
    case DISCARD => if |tokens| != 1 then ArityError("discard") else Parsed(Discard)
    case AUTH => if |tokens| != 2 then ArityError("auth") else Parsed(Auth(tokens[1]))
    case Unknown => Malformed("unknown command '" + tokens[0] + "'")
  }

  function OneKey(tokens: seq<string>, name: string, act: Act): ParseResult {
    if |tokens| != 2 then ArityError(name) else Parsed(OnData(tokens[1], act))
  }

  /** SET key value, or SET key value EX seconds. */
  function ParseSet(tokens: seq<string>): ParseResult {
    if |tokens| == 3 then Parsed(OnData(tokens[1], Act.Set(tokens[2], None)))
    else if |tokens| == 5 then
      if Upper(tokens[3]) != "EX" then Malformed("syntax error near '" + tokens[3] + "' (expected EX)")
      else
        var seconds := ParsePositiveInt(tokens[4]);
        if seconds.None? then Malformed("EX seconds must be a positive integer")
        else Parsed(OnData(tokens[1], Act.Set(tokens[2], Some(seconds.value))))
    else ArityError("set")
  }

  /** Consecutive tokens paired up. */
  function Pairs(rest: seq<string>): (r: seq<(string, string)>)
    requires |rest| % 2 == 0
    ensures |r| == |rest| / 2
    ensures forall i :: 0 <= i < |r| ==> r[i] == (rest[2 * i], rest[2 * i + 1])
  {
    if rest == [] then [] else [(rest[0], rest[1])] + Pairs(rest[2..])
  }

  function HsetResult(tokens: seq<string>): ParseResult {
    if |tokens| < 4 || |tokens| % 2 != 0 then ArityError("hset")
    else Parsed(OnData(tokens[1], Act.HSet(Pairs(tokens[2..]))))
  }

  /** The loop that pairs up fields and values. */
  method ParseHset(tokens: seq<string>) returns (r: ParseResult)
    ensures r == HsetResult(tokens)
  {
    var rest := if |tokens| >= 2 then tokens[2..] else [];
    if |rest| < 2 || |rest| % 2 != 0 {
      return ArityError("hset");
    }
    var pairs: seq<(string, string)> := [];
    var i := 0;
    while i < |rest|
      invariant 0 <= i <= |rest| && i % 2 == 0
      invariant |pairs| == i / 2
      invariant forall j :: 0 <= j < |pairs| ==> pairs[j] == (rest[2 * j], rest[2 * j + 1])
    {
      pairs := pairs + [(rest[i], rest[i + 1])];
      i := i + 2;
    }
    assert pairs == Pairs(rest);
    return Parsed(OnData(tokens[1], Act.HSet(pairs)));
  }

  // ----- What the parser guarantees -----

  /** Every argument is a token, every TTL is within bounds, pushes and field lists are not empty. */
  ghost predicate WellFormedAct(act: Act) {
    match act
    case Set(x, ttl) => IsToken(x) && (ttl.Some? ==> 1 <= ttl.value <= MAX_TTL_SECONDS)
    case Expire(seconds) => 1 <= seconds <= MAX_TTL_SECONDS
    case LPush(xs) => xs != [] && AllTokens(xs)
    case RPush(xs) => xs != [] && AllTokens(xs)
    case HSet(pairs) => pairs != [] && forall i :: 0 <= i < |pairs| ==> IsToken(pairs[i].0) && IsToken(pairs[i].1)
    case HGet(f) => IsToken(f)
    case HDel(fs) => fs != [] && AllTokens(fs)
    case TypeOf => false
    case _ => true
  }

  ghost predicate WellFormedCommand(c: Command) {
    match c
    case OnData(k, act) => IsToken(k) && WellFormedAct(act)
    case ListKeys(pattern) => IsToken(pattern)
    case Subscribe(channels) => channels != [] && AllTokens(channels)
    case Unsubscribe(channels) => AllTokens(channels)
    case Publish(channel, message) => IsToken(channel) && IsToken(message)
    case _ => true
  }

  /** Whatever the line, a parsed command is well formed. */
  lemma {:induction false} ParsedWellFormed(line: string)
    requires Parse(line).Parsed?
    ensures WellFormedCommand(Parse(line).command)
  {
    hide WordOf, Tokens, Upper, IsToken, DigitsValue, ParseTokens;
    TokensAreWords(line);
    var tokens := Tokens(line);
    assert AllTokens(tokens);
    TokensWellFormed(WordOf(Upper(tokens[0])), tokens);
  }

  /** What a line that does not parse is answered holds no carriage return. */
  lemma {:induction false} MessagePlain(line: string)
    requires Parse(line).Malformed?
    ensures '\r' !in Parse(line).message
  {
    hide WordOf, Tokens, Upper, IsToken, ParseTokens;
    TokensAreWords(line);
    var tokens := Tokens(line);
    assert AllTokens(tokens);
    if tokens != [] {
      TokensMessage(WordOf(Upper(tokens[0])), tokens);
    }
  }

  /** A complaint about the number of arguments. */
  predicate PlainArity(name: string) {
    ArityError(name).Malformed? && '\r' !in ArityError(name).message
  }

  lemma {:induction false} ArityAt(name: string)
    requires '\r' !in name
    ensures PlainArity(name)
  {
    QuotedPlain("wrong number of arguments for '", name, "' command");
  }

  lemma {:induction false} TokensMessage(word: Word, tokens: seq<string>)
    requires tokens != [] && AllTokens(tokens)
    ensures ParseTokens(word, tokens).Malformed? ==> '\r' !in ParseTokens(word, tokens).message
  {
    hide IsToken, ParseTokens;
    if word.LPUSH? || word.LPOP? || word.LRANGE? || word.RPUSH? || word.RPOP? || word.LLEN?
      || word.HSET? || word.HGET? || word.HDEL? || word.HGETALL? || word.HLEN? {
      ContainerMessage(word, tokens);
    } else {
      OtherMessage(word, tokens);
    }
  }

  lemma {:induction false} ContainerMessage(word: Word, tokens: seq<string>)
    requires tokens != [] && AllTokens(tokens)
    requires word.LPUSH? || word.LPOP? || word.LRANGE? || word.RPUSH? || word.RPOP? || word.LLEN?
      || word.HSET? || word.HGET? || word.HDEL? || word.HGETALL? || word.HLEN?
    ensures ParseTokens(word, tokens).Malformed? ==> '\r' !in ParseTokens(word, tokens).message
  {
    hide IsToken, ParsePositiveInt, ParseSignedInt, Pairs, ArityError;
    match word
    case LPUSH => ArityAt("lpush");
    case LPOP => ArityAt("lpop");
    case LRANGE =>
      ArityAt("lrange");
      BoundsPlain();
    case RPUSH => ArityAt("rpush");
    case RPOP => ArityAt("rpop");
    case LLEN => ArityAt("llen");
    case HSET => ArityAt("hset");
    case HGET => ArityAt("hget");
    case HDEL => ArityAt("hdel");
    case HGETALL => ArityAt("hgetall");
    case HLEN => ArityAt("hlen");
  }

  lemma {:induction false} OtherMessage(word: Word, tokens: seq<string>)
    requires tokens != [] && AllTokens(tokens)
    requires !(word.LPUSH? || word.LPOP? || word.LRANGE? || word.RPUSH? || word.RPOP? || word.LLEN?
      || word.HSET? || word.HGET? || word.HDEL? || word.HGETALL? || word.HLEN?)
    ensures ParseTokens(word, tokens).Malformed? ==> '\r' !in ParseTokens(word, tokens).message
  {
    hide IsToken, ParsePositiveInt, ParseSignedInt, ArityError, ParseSet;
    match word
    case SET => SetMessage(tokens);
    case GET => ArityAt("get");
    case DEL => ArityAt("del");
    case EXPIRE =>
      ArityAt("expire");
      SecondsPlain();
    case EXISTS => ArityAt("exists");
    case TTL => ArityAt("ttl");
    case PERSIST => ArityAt("persist");
    case KEYS => ArityAt("keys");
    case BGSAVE => ArityAt("bgsave");
    case BGREWRITEAOF => ArityAt("bgrewriteaof");
    case SUBSCRIBE => ArityAt("subscribe");
    case PUBLISH => ArityAt("publish");
    case MULTI => ArityAt("multi");
    case EXEC => ArityAt("exec");
    case DISCARD => ArityAt("discard");
    case AUTH => ArityAt("auth");
    case UNSUBSCRIBE =>
    case Unknown =>
      UnknownPlain(tokens[0]);
  }

  lemma {:induction false} SetMessage(tokens: seq<string>)
    requires AllTokens(tokens)
    ensures ParseSet(tokens).Malformed? ==> '\r' !in ParseSet(tokens).message
  {
    hide Upper, IsToken, ParsePositiveInt, ArityError;
    ArityAt("set");
    if |tokens| == 5 {
      SyntaxPlain(tokens[3]);
      SecondsPlain();
    }
  }

  lemma {:induction false} SyntaxPlain(t: string)
    requires IsToken(t)
    ensures '\r' !in "syntax error near '" + t + "' (expected EX)"
  {
    TokenPlain(t);
    hide IsToken;
    QuotedPlain("syntax error near '", t, "' (expected EX)");
  }

  lemma {:induction false} UnknownPlain(t: string)
    requires IsToken(t)
    ensures '\r' !in "unknown command '" + t + "'"
  {
    TokenPlain(t);
    hide IsToken;
    QuotedPlain("unknown command '", t, "'");
  }

  lemma {:induction false} SecondsPlain()
    ensures '\r' !in "EX seconds must be a positive integer"
    ensures '\r' !in "seconds must be a positive integer"
  {
  }

  lemma {:induction false} BoundsPlain()
    ensures '\r' !in "start and stop must be integers"
  {
  }

  lemma {:induction false} QuotedPlain(before: string, word: string, after: string)
    requires '\r' !in before && '\r' !in word && '\r' !in after
    ensures '\r' !in before + word + after
  {
  }

  lemma {:induction false} TokenPlain(t: string)
    requires IsToken(t)
    ensures '\r' !in t
  {
  }

  lemma {:induction false} TokensWellFormed(word: Word, tokens: seq<string>)
    requires tokens != [] && AllTokens(tokens)
    ensures ParseTokens(word, tokens).Parsed? ==> WellFormedCommand(ParseTokens(word, tokens).command)
  {
    hide IsToken, ParseTokens, AllTokens;
    TokensTail(tokens);
    if word.LPUSH? || word.LPOP? || word.LRANGE? || word.RPUSH? || word.RPOP? || word.LLEN?
      || word.HSET? || word.HGET? || word.HDEL? || word.HGETALL? || word.HLEN? {
      ContainerFormed(word, tokens);
    } else {
      OtherFormed(word, tokens);
    }
  }

  lemma {:induction false} TokensTail(tokens: seq<string>)
    requires tokens != [] && AllTokens(tokens)
    ensures AllTokens(tokens[1..]) && (|tokens| >= 2 ==> AllTokens(tokens[2..]))
  {
    hide IsToken;
  }

  lemma {:induction false} ContainerFormed(word: Word, tokens: seq<string>)
    requires tokens != [] && AllTokens(tokens) && (|tokens| >= 2 ==> AllTokens(tokens[2..]))
    requires word.LPUSH? || word.LPOP? || word.LRANGE? || word.RPUSH? || word.RPOP? || word.LLEN?
      || word.HSET? || word.HGET? || word.HDEL? || word.HGETALL? || word.HLEN?
    ensures ParseTokens(word, tokens).Parsed? ==> WellFormedCommand(ParseTokens(word, tokens).command)
  {
    hide Upper, IsToken, ParseSignedInt, ParsePositiveInt, ParseSet;
  }

  lemma {:induction false} OtherFormed(word: Word, tokens: seq<string>)
    requires tokens != [] && AllTokens(tokens) && AllTokens(tokens[1..])
    requires !(word.LPUSH? || word.LPOP? || word.LRANGE? || word.RPUSH? || word.RPOP? || word.LLEN?
      || word.HSET? || word.HGET? || word.HDEL? || word.HGETALL? || word.HLEN?)
    ensures ParseTokens(word, tokens).Parsed? ==> WellFormedCommand(ParseTokens(word, tokens).command)
  {
    hide Upper, IsToken, DigitsValue, ParseSignedInt, HsetResult;
  }

  /** Only the tokens matter, so a trimmed line parses alike. */
  lemma {:induction false} ParseTrimmed(line: string)
    ensures Parse(Trim(line)) == Parse(line)
  {
    TokensAreWords(line);
  }

  /** A line made of tokens parses as those tokens. */
  lemma {:induction false} ParseJoined(tokens: seq<string>)
    requires AllTokens(tokens) && tokens != []
    ensures Parse(Join(tokens)) == ParseTokens(WordOf(Upper(tokens[0])), tokens)
  {
    TokensJoin(tokens);
  }

  // ----- The command words -----

  function NameOf(word: Word): string {
    match word
    case SET => "SET"
    case GET => "GET"
    case DEL => "DEL"
    case EXPIRE => "EXPIRE"
    case LPUSH => "LPUSH"
    case LPOP => "LPOP"
    case LRANGE => "LRANGE"
    case HSET => "HSET"
    case HGET => "HGET"
    case EXISTS => "EXISTS"
    case TTL => "TTL"
    case PERSIST => "PERSIST"
    case KEYS => "KEYS"
    case RPUSH => "RPUSH"
    case RPOP => "RPOP"
    case LLEN => "LLEN"
    case HDEL => "HDEL"
    case HGETALL => "HGETALL"
    case HLEN => "HLEN"
    case BGSAVE => "BGSAVE"
    case BGREWRITEAOF => "BGREWRITEAOF"
    case SUBSCRIBE => "SUBSCRIBE"
    case UNSUBSCRIBE => "UNSUBSCRIBE"
    case PUBLISH => "PUBLISH"
    case MULTI => "MULTI"
    case EXEC => "EXEC"
    case DISCARD => "DISCARD"
    case AUTH => "AUTH"
    case Unknown => ""
  }

  lemma {:induction false} KeyNames(word: Word)
    requires word.SET? || word.GET? || word.DEL? || word.EXPIRE?
      || word.EXISTS? || word.TTL? || word.PERSIST? || word.KEYS?
    ensures KeyWordOf(NameOf(word)) == word
  {
  }

  lemma {:induction false} ContainerNames(word: Word)
    requires word.LPUSH? || word.LPOP? || word.LRANGE? || word.RPUSH? || word.RPOP? || word.LLEN?
      || word.HSET? || word.HGET? || word.HDEL? || word.HGETALL? || word.HLEN?
    ensures KeyWordOf(NameOf(word)).Unknown? && ContainerWordOf(NameOf(word)) == word
  {
  }

  lemma {:induction false} ServerNames(word: Word)
    requires word.BGSAVE? || word.BGREWRITEAOF? || word.SUBSCRIBE? || word.UNSUBSCRIBE?
      || word.PUBLISH? || word.MULTI? || word.EXEC? || word.DISCARD? || word.AUTH?
    ensures ServerWordOf(NameOf(word)) == word
  {
    hide NameOf, ServerWordOf;
    if word.BGSAVE? || word.BGREWRITEAOF? || word.SUBSCRIBE? || word.UNSUBSCRIBE? {
      FirstServerNames(word);
    } else {
      LastServerNames(word);
    }
  }

  lemma {:induction false} FirstServerNames(word: Word)
    requires word.BGSAVE? || word.BGREWRITEAOF? || word.SUBSCRIBE? || word.UNSUBSCRIBE?
    ensures ServerWordOf(NameOf(word)) == word
  {
  }

  lemma {:induction false} LastServerNames(word: Word)
    requires word.PUBLISH? || word.MULTI? || word.EXEC? || word.DISCARD? || word.AUTH?
    ensures ServerWordOf(NameOf(word)) == word
  {
  }

  lemma {:induction false} NoKeyNames(word: Word)
    requires word.BGSAVE? || word.BGREWRITEAOF? || word.SUBSCRIBE? || word.UNSUBSCRIBE?
      || word.PUBLISH? || word.MULTI? || word.EXEC? || word.DISCARD? || word.AUTH?
    ensures KeyWordOf(NameOf(word)).Unknown?
  {
  }

  lemma {:induction false} NoContainerNames(word: Word)
    requires word.BGSAVE? || word.BGREWRITEAOF? || word.SUBSCRIBE? || word.UNSUBSCRIBE?
      || word.PUBLISH? || word.MULTI? || word.EXEC? || word.DISCARD? || word.AUTH?
    ensures ContainerWordOf(NameOf(word)).Unknown?
  {
  }

  lemma {:induction false} UpperNames(word: Word)
    requires !word.Unknown?
    ensures NameOf(word) != "" && forall i :: 0 <= i < |NameOf(word)| ==> 'A' <= NameOf(word)[i] <= 'Z'
  {
  }

  /** Every name is its word's, is upper-case already, and is a token. */
  lemma {:induction false} NameIsWord(word: Word)
    requires !word.Unknown?
    ensures WordOf(NameOf(word)) == word
    ensures Upper(NameOf(word)) == NameOf(word) && IsToken(NameOf(word))
  {
    hide NameOf, KeyWordOf, ContainerWordOf, ServerWordOf, Upper, IsToken;
    UpperNames(word);
    UpperStays(NameOf(word));
    match word
    case SET | GET | DEL | EXPIRE | EXISTS | TTL | PERSIST | KEYS => KeyNames(word);
    case BGSAVE | BGREWRITEAOF | SUBSCRIBE | UNSUBSCRIBE | PUBLISH | MULTI | EXEC | DISCARD | AUTH =>
      NoKeyNames(word);
      NoContainerNames(word);
      ServerNames(word);
    case _ => ContainerNames(word);
  }

  lemma {:induction false} UpperStays(s: string)
    requires forall i :: 0 <= i < |s| ==> 'A' <= s[i] <= 'Z'
    ensures Upper(s) == s
    ensures s != "" ==> IsToken(s)
  {
    if s != [] {
      UpperStays(s[1..]);
    }
  }

  lemma {:induction false} KeyWordNamed(name: string)
    ensures !KeyWordOf(name).Unknown? ==> NameOf(KeyWordOf(name)) == name
  {
  }

  lemma {:induction false} ContainerWordNamed(name: string)
    ensures !ContainerWordOf(name).Unknown? ==> NameOf(ContainerWordOf(name)) == name
  {
  }

  lemma {:induction false} ServerWordNamed(name: string)
    ensures !ServerWordOf(name).Unknown? ==> NameOf(ServerWordOf(name)) == name
  {
  }

  /** And no other name is. */
  lemma {:induction false} WordIsName(name: string)
    requires !WordOf(name).Unknown?
    ensures NameOf(WordOf(name)) == name
  {
    hide NameOf, KeyWordOf, ContainerWordOf, ServerWordOf;
    KeyWordNamed(name);
    ContainerWordNamed(name);
    ServerWordNamed(name);
  }

  lemma {:induction false} OneWord(word: Word)
    requires !word.Unknown?
    ensures Parse(NameOf(word)) == ParseTokens(word, [NameOf(word)])
  {
    hide WordOf, NameOf, Upper, IsToken, ParseTokens, Parse;
    NameIsWord(word);
    assert AllTokens([NameOf(word)]);
    ParseJoined([NameOf(word)]);
    assert Join([NameOf(word)]) == NameOf(word);
  }

  /** The three lines that control transactions. */
  lemma {:induction false} TransactionWords()
    ensures Parse("MULTI") == Parsed(Multi) && Parse("EXEC") == Parsed(Exec) && Parse("DISCARD") == Parsed(Discard)
  {
    hide WordOf, Upper, IsToken, Parse;
    OneWord(MULTI);
    OneWord(EXEC);
    OneWord(DISCARD);
  }

  lemma {:induction false} PrintedWords()
    ensures WordOf(Upper("SET")) == SET && IsToken("SET")
    ensures WordOf(Upper("EXPIRE")) == EXPIRE && IsToken("EXPIRE")
    ensures WordOf(Upper("RPUSH")) == RPUSH && IsToken("RPUSH")
    ensures WordOf(Upper("HSET")) == HSET && IsToken("HSET")
    ensures Upper("EX") == "EX" && IsToken("EX")
  {
    hide WordOf, Upper, IsToken;
    NameIsWord(SET);
    NameIsWord(EXPIRE);
    NameIsWord(RPUSH);
    NameIsWord(HSET);
    UpperStays("EX");
  }

  lemma {:induction false} DecimalIsToken(n: nat)
    ensures IsToken(Decimal(n))
  {
  }

  lemma {:induction false} IntIsToken(n: int)
    ensures IsToken(IntText(n))
  {
  }

  // ----- Printing commands -----

  function Flatten(pairs: seq<(string, string)>): seq<string> {
    if pairs == [] then [] else [pairs[0].0, pairs[0].1] + Flatten(pairs[1..])
  }

  function WordFor(c: Command): Word {
    match c
    case OnData(_, act) =>
      (match act
       case Get => GET
       case Set(_, _) => SET
       case Del => DEL
       case Expire(_) => EXPIRE
       case Exists => EXISTS
       case Ttl => TTL
       case Persist => PERSIST
       case TypeOf => Unknown
       case LPush(_) => LPUSH
       case LPop => LPOP
       case LRange(_, _) => LRANGE
       case RPush(_) => RPUSH
       case RPop => RPOP
       case LLen => LLEN
       case HSet(_) => HSET
       case HGet(_) => HGET
       case HDel(_) => HDEL
       case HGetAll => HGETALL
       case HLen => HLEN)
    case ListKeys(_) => KEYS
    case BgSave => BGSAVE
    case BgRewriteAof => BGREWRITEAOF
    case Subscribe(_) => SUBSCRIBE
    case Unsubscribe(_) => UNSUBSCRIBE
    case Publish(_, _) => PUBLISH
    case Multi => MULTI
    case Exec => EXEC
    case Discard => DISCARD
    case Auth(_) => AUTH
  }

  function ActArguments(act: Act): seq<string> {
    match act
    case Set(x, ttl) => if ttl.Some? then [x, "EX", IntText(ttl.value)] else [x]
    case Expire(seconds) => [IntText(seconds)]
    case LPush(xs) => xs
    case RPush(xs) => xs
    case LRange(start, stop) => [IntText(start), IntText(stop)]
    case HSet(pairs) => Flatten(pairs)
    case HGet(f) => [f]
    case HDel(fs) => fs
    case _ => []
  }

  function Arguments(c: Command): seq<string> {
    match c
    case OnData(key, act) => [key] + ActArguments(act)
    case ListKeys(pattern) => [pattern]
    case Subscribe(channels) => channels
    case Unsubscribe(channels) => channels
    case Publish(channel, message) => [channel, message]
    case Auth(password) => [password]
    case _ => []
  }

  /** The tokens that say a command. */
  function Print(c: Command): seq<string> {
    [NameOf(WordFor(c))] + Arguments(c)
  }

  /** What the parser accepts, as a property of the command alone. */
  ghost predicate Sayable(c: Command) {
    && WellFormedCommand(c)
    && AllTokens(Arguments(c))
    && (c.OnData? && c.act.LRange? ==>
          -MAX_SAFE_INTEGER <= c.act.start <= MAX_SAFE_INTEGER && -MAX_SAFE_INTEGER <= c.act.stop <= MAX_SAFE_INTEGER)
    && (c.Subscribe? ==> c.channels != [])
  }

  lemma {:induction false} PairsFlatten(pairs: seq<(string, string)>)
    ensures |Flatten(pairs)| == 2 * |pairs| && Pairs(Flatten(pairs)) == pairs
  {
    if pairs != [] {
      PairsFlatten(pairs[1..]);
      assert Flatten(pairs)[2..] == Flatten(pairs[1..]);
    }
  }

  lemma {:induction false} FlattenPairs(rest: seq<string>)
    requires |rest| % 2 == 0
    ensures Flatten(Pairs(rest)) == rest
    decreases |rest|
  {
    if rest != [] {
      FlattenPairs(rest[2..]);
      assert Pairs(rest)[1..] == Pairs(rest[2..]);
    }
  }

  /** Reading back a printed SET, EXPIRE, LRANGE or HSET. */
  lemma {:induction false} ParseSpecial(k: string, act: Act)
    requires Sayable(OnData(k, act)) && (act.Set? || act.Expire? || act.LRange? || act.HSet?)
    ensures ParseTokens(WordFor(OnData(k, act)), Print(OnData(k, act))) == Parsed(OnData(k, act))
  {
    hide IsToken, Decimal, DigitsValue, NameOf, Flatten, Upper, IntText, ParseSignedInt, ParsePositiveInt;
    var ts := Print(OnData(k, act));
    assert ts[1] == k && ts[2..] == ActArguments(act);
    match act
    case Set(_, ttl) =>
      UpperStays("EX");
      if ttl.Some? { PrintedTtl(ttl.value); }
    case Expire(seconds) => PrintedTtl(seconds);
    case LRange(start, stop) =>
      SignedRoundTrip(start);
      SignedRoundTrip(stop);
    case HSet(pairs) => PairsFlatten(pairs);
  }

  /** Reading back the arguments of any command. */
  lemma {:induction false} ParseArguments(c: Command)
    requires Sayable(c)
    ensures ParseTokens(WordFor(c), Print(c)) == Parsed(c)
  {
    hide IsToken, Decimal, DigitsValue, NameOf, Flatten, Upper, IntText, ParseSignedInt, ParsePositiveInt;
    if c.OnData? && (c.act.Set? || c.act.Expire? || c.act.LRange? || c.act.HSet?) {
      ParseSpecial(c.key, c.act);
    } else {
      var ts := Print(c);
      assert ts[1..] == Arguments(c);
      assert c.OnData? ==> ts[1] == c.key && ts[2..] == ActArguments(c.act);
    }
  }

  lemma {:induction false} PrintedTtl(seconds: int)
    requires 1 <= seconds <= MAX_TTL_SECONDS
    ensures ParsePositiveInt(IntText(seconds)) == Some(seconds)
  {
    PositiveRoundTrip(seconds);
  }

  /** Every command that can be said is what its printed line parses to. */
  lemma {:induction false} PrintParses(c: Command)
    requires Sayable(c)
    ensures Parse(Join(Print(c))) == Parsed(c)
  {
    hide Parse, ParseTokens, WordOf, NameOf, Upper, IsToken, Arguments;
    SayableWord(c);
    NameIsWord(WordFor(c));
    assert AllTokens(Print(c));
    ParseJoined(Print(c));
    ParseArguments(c);
  }

  lemma {:induction false} SayableWord(c: Command)
    requires Sayable(c)
    ensures !WordFor(c).Unknown?
  {
    hide IsToken;
  }

  /** The same argument: the same token, or the word EX in any case, or another numeral for the same
      number. */
  predicate SameArgument(a: string, b: string) {
    || a == b
    || (b == "EX" && Upper(a) == "EX")
    || (ParseSignedInt(a).Some? && ParseSignedInt(a) == ParseSignedInt(b))
  }

  predicate SameArguments(a: seq<string>, b: seq<string>) {
    |a| == |b| && forall i :: 0 <= i < |a| ==> SameArgument(a[i], b[i])
  }

  lemma {:induction false} PositiveIsSigned(token: string)
    requires ParsePositiveInt(token).Some?
    ensures ParseSignedInt(token) == ParsePositiveInt(token)
    ensures SameArgument(token, IntText(ParsePositiveInt(token).value))
  {
    assert IsDigit(token[0]);
    SignedRoundTrip(ParsePositiveInt(token).value);
  }

  lemma {:induction false} SignedSame(token: string)
    requires ParseSignedInt(token).Some?
    ensures SameArgument(token, IntText(ParseSignedInt(token).value))
    ensures -MAX_SAFE_INTEGER <= ParseSignedInt(token).value <= MAX_SAFE_INTEGER
  {
    SignedRoundTrip(ParseSignedInt(token).value);
  }

  /** Nothing else parses: a line that does is, token by token, the printed command, up to the case
      of the command word and of EX and to the spelling of numbers. */
  lemma {:induction false} ParsedIsPrinted(line: string)
    requires Parse(line).Parsed?
    ensures var c, tokens := Parse(line).command, Tokens(line);
            && Sayable(c) && tokens != []
            && Upper(tokens[0]) == NameOf(WordFor(c))
            && SameArguments(tokens[1..], Arguments(c))
  {
    hide WordOf, Tokens, Upper, IsToken, ParseTokens, NameOf, Arguments, SameArguments, Sayable;
    TokensAreWords(line);
    var tokens := Tokens(line);
    assert AllTokens(tokens);
    var word := WordOf(Upper(tokens[0]));
    TokensPrinted(word, tokens);
    WordIsName(Upper(tokens[0]));
  }

  lemma {:induction false} TokensPrinted(word: Word, tokens: seq<string>)
    requires tokens != [] && AllTokens(tokens) && ParseTokens(word, tokens).Parsed?
    ensures var c := ParseTokens(word, tokens).command;
            && WordFor(c) == word && !word.Unknown?
            && Sayable(c) && SameArguments(tokens[1..], Arguments(c))
  {
    hide IsToken, Upper, DigitsValue, IntText, ParseSignedInt, ParsePositiveInt, SameArgument, Flatten;
    TokensWellFormed(word, tokens);
    if word.SET? || word.EXPIRE? || word.LRANGE? || word.HSET? {
      SpecialPrinted(word, tokens);
    } else {
      var c, rest := ParseTokens(word, tokens).command, tokens[1..];
      assert AllTokens(rest);
      assert c.OnData? ==> rest == [tokens[1]] + tokens[2..];
      assert rest == Arguments(c);
      SameThemselves(rest);
    }
  }

  lemma {:induction false} SpecialPrinted(word: Word, tokens: seq<string>)
    requires tokens != [] && AllTokens(tokens) && ParseTokens(word, tokens).Parsed?
    requires word.SET? || word.EXPIRE? || word.LRANGE? || word.HSET?
    ensures var c := ParseTokens(word, tokens).command;
            && WordFor(c) == word
            && Sayable(c) && SameArguments(tokens[1..], Arguments(c))
  {
    hide IsToken, Upper, DigitsValue, IntText, ParseSignedInt, ParsePositiveInt, SameArgument, Flatten;
    TokensWellFormed(word, tokens);
    var c, rest := ParseTokens(word, tokens).command, tokens[1..];
    assert AllTokens(rest);
    assert rest == [tokens[1]] + tokens[2..];
    SameThemselves(rest);
    match c.act
    case Set(_, ttl) => if ttl.Some? { SetPrinted(tokens, ttl.value); }
    case Expire(seconds) =>
      PositiveIsSigned(tokens[2]);
      IntIsToken(seconds);
    case LRange(start, stop) =>
      SignedSame(tokens[2]);
      SignedSame(tokens[3]);
      IntIsToken(start);
      IntIsToken(stop);
    case HSet(pairs) => FlattenPairs(tokens[2..]);
  }

  lemma {:induction false} SameThemselves(a: seq<string>)
    ensures SameArguments(a, a)
    ensures forall i :: 0 <= i < |a| ==> SameArgument(a[i], a[i])
  {
    hide Upper, ParseSignedInt;
  }

  lemma {:induction false} SetPrinted(tokens: seq<string>, seconds: int)
    requires |tokens| == 5 && Upper(tokens[3]) == "EX" && ParsePositiveInt(tokens[4]) == Some(seconds)
    ensures SameArgument(tokens[3], "EX") && IsToken("EX")
    ensures SameArgument(tokens[4], IntText(seconds)) && IsToken(IntText(seconds))
  {
    PositiveIsSigned(tokens[4]);
    IntIsToken(seconds);
  }
}
