/** What the data commands mean to a client: laws between commands on any valid store, full or not, told
    in the text of the replies. */
module Laws {
  import opened Options
  import opened Sequences
  import opened OrderedMap
  import opened Text
  import opened StoreSpec
  import opened StoreFacts
  import opened StoreRelations
  import opened CommandParser
  import opened Execution
  import Conservation
  import Expiry
  import LRU
  import Replies

  /** What a data command is answered, and the store it leaves. */
  function Told(s: State, now: int, k: string, act: Act): string {
    Execute(s, now, OnData(k, act)).reply
  }

  function Next(s: State, now: int, k: string, act: Act): State {
    Execute(s, now, OnData(k, act)).state
  }

  /** What a key holds for a command at `now`, and until when. */
  function Held(s: State, now: int, k: string): Option<Value> {
    if s.Live(k, now) then Some(s.values.at[k]) else None
  }

  function Until(s: State, now: int, k: string): Option<int> {
    if s.Live(k, now) then s.Deadline(k) else None
  }

  // ----- One command -----

  function Becomes(change: Change, before: Option<Value>): Option<Value> {
    match change
    case Leave => before
    case Drop => None
    case Write(v) => Some(v)
  }

  function Expires(e: Effect, before: Option<int>): Option<int> {
    if e.change.Drop? then None
    else
      match e.ttl
      case KeepTtl => before
      case SetTtl(at) => Some(at)
      case ClearTtl => None
  }

  /** A command's effect on its key, whatever room has to be made for it. */
  lemma {:induction false} Acts(s: State, now: int, k: string, act: Act)
    requires s.Valid() && !act.Get?
    ensures var e, u := Meaning(act, now, Held(s, now, k), Until(s, now, k)), Next(s, now, k, act);
            && u.Valid() && Told(s, now, k, act) == ReplyText(e.outcome)
            && u.Lookup(k) == Becomes(e.change, Held(s, now, k))
            && u.Deadline(k) == Expires(e, Until(s, now, k))
            && (u.Has(k) && e.touch ==> u.recency != [] && u.recency[0] == k)
            && (s.Live(k, now) && u.Has(k) && !e.touch ==> u.recency == s.recency)
  {
    hide State.Valid, Commit, Meaning, Gate, ReplyText;
    var g := Gate(s, now, k);
    GateValid(s, now, k);
    GateLive(s, now, k);
    if !g.Has(k) { Missing(g, k); }
    var e := EffectOf(g, now, k, act);
    assert e == Meaning(act, now, Held(s, now, k), Until(s, now, k));
    EffectSane(g, now, k, act);
    KeyStepValid(s, now, k, act);
    CommitsKey(g, now, k, e);
  }

  lemma {:induction false} CommitsKey(g: State, now: int, k: string, e: Effect)
    requires g.Valid() && Sane(e, g.Has(k))
    ensures var u := Commit(g, now, k, e);
            && u.Lookup(k) == Becomes(e.change, g.Lookup(k))
            && u.Deadline(k) == Expires(e, g.Deadline(k))
            && (u.Has(k) && e.touch ==> u.recency != [] && u.recency[0] == k)
            && (g.Has(k) && u.Has(k) && !e.touch ==> u.recency == g.recency)
  {
    hide State.Valid, Commit, Reserve, Sane, RemoveKey;
    match e.change
    case Drop =>
      DropCommits(g, now, k, e);
      RemoveKeyValid(g, k);
      Removed(g, k);
    case Leave =>
      LeaveRoom(g, k, e);
      if g.Has(k) {
        CommitInPlace(g, now, k, e);
      } else {
        LeaveNothing(g, now, k, e);
      }
    case Write(v) =>
      CommitAfterReserve(g, now, k, e);
      ReserveRestricts(g, now, k);
      var r := Reserve(g, now, k);
      if !r.Has(k) { Missing(r, k); Missing(g, k); }
      WriteSane(e, g.Has(k), r.Has(k));
      CommitInPlace(r, now, k, e);
  }

  lemma {:induction false} Removed(s: State, k: string)
    requires s.Valid()
    ensures !RemoveKey(s, k).Has(k) && RemoveKey(s, k).Deadline(k) == None
  {
    RemoveKeyValid(s, k);
  }

  lemma {:induction false} LeaveRoom(s: State, k: string, e: Effect)
    requires Sane(e, s.Has(k)) && e.change.Leave?
    ensures !s.Has(k) ==> !e.touch && e.ttl.KeepTtl?
    ensures s.Has(k) ==> !Full(s, k)
  {
  }

  lemma {:induction false} LeaveNothing(s: State, now: int, k: string, e: Effect)
    requires e.change.Leave? && !e.touch && e.ttl.KeepTtl?
    ensures Commit(s, now, k, e).Lookup(k) == s.Lookup(k) && Commit(s, now, k, e).Deadline(k) == s.Deadline(k)
    ensures Commit(s, now, k, e).recency == s.recency
  {
  }

  lemma {:induction false} WriteSane(e: Effect, a: bool, b: bool)
    requires Sane(e, a) && e.change.Write?
    ensures Sane(e, b) && e.touch
  {
  }

  /** GET asks for the kind first; either way it only looks. */
  lemma {:induction false} GetActs(s: State, now: int, k: string)
    requires s.Valid()
    ensures var v, u := Held(s, now, k), Next(s, now, k, Act.Get);
            && u.Valid() && u.Lookup(k) == v && u.Deadline(k) == Until(s, now, k)
            && Told(s, now, k, Act.Get) == (match v
                                            case None => "$(nil)\r\n"
                                            case Some(Str(x)) => "$" + x + "\r\n"
                                            case Some(_) => WRONG)
            && (v.Some? && v.value.Str? ==> u.recency != [] && u.recency[0] == k)
            && (v.Some? && !v.value.Str? ==> u.recency == s.recency)
  {
    hide State.Valid, Step;
    Spelled();
    KeyLooked(s, now, k);
    var u := Step(s, now, OnKey(k, TypeOf)).0;
    KeyGot(u, now, k);
  }

  lemma {:induction false} KeyLooked(s: State, now: int, k: string)
    requires s.Valid()
    ensures var (u, o) := Step(s, now, OnKey(k, TypeOf));
            && u.Valid() && Held(u, now, k) == Held(s, now, k) && Until(u, now, k) == Until(s, now, k)
            && (Held(s, now, k).Some? ==> u == s)
            && o == KindIs(if Held(s, now, k).Some? then Some(KindOf(Held(s, now, k).value)) else None)
            && u.Lookup(k) == Held(s, now, k) && u.Deadline(k) == Until(s, now, k)
  {
    hide State.Valid, Gate;
    GateValid(s, now, k);
    GateLive(s, now, k);
    if !Gate(s, now, k).Has(k) { Missing(Gate(s, now, k), k); }
  }

  lemma {:induction false} KeyGot(u: State, now: int, k: string)
    requires u.Valid() && (u.Has(k) ==> u.Live(k, now))
    ensures var (w, o) := Step(u, now, OnKey(k, Act.Get));
            && w.Valid() && w.Lookup(k) == u.Lookup(k) && w.Deadline(k) == u.Deadline(k)
            && o == Outcome.Text(if u.Has(k) && u.values.at[k].Str? then Some(u.values.at[k].text) else None)
            && (u.Has(k) && u.values.at[k].Str? ==> w.recency != [] && w.recency[0] == k)
  {
    hide State.Valid;
    KeyStepValid(u, now, k, Act.Get);
    GateLive(u, now, k);
  }

  // ----- The replies, spelled out -----

  const WRONG := "-" + "WRONGTYPE Operation against a key" + " holding the wrong kind of value" + "\r\n"

  lemma {:induction false} Spelled()
    ensures ReplyText(Done) == "+OK\r\n"
    ensures ReplyText(Flag(true)) == ":1\r\n" && ReplyText(Flag(false)) == ":0\r\n"
    ensures ReplyText(Num(-1)) == ":-1\r\n" && ReplyText(Num(-2)) == ":-2\r\n" && ReplyText(Num(0)) == ":0\r\n"
    ensures ReplyText(Outcome.Text(None)) == "$(nil)\r\n"
    ensures forall v {:trigger ReplyText(Outcome.Text(Some(v)))} :: ReplyText(Outcome.Text(Some(v))) == "$" + v + "\r\n"
    ensures ReplyText(WrongType) == WRONG
  {
    hide ReplyText;
    NumsSpelled();
    WordsSpelled();
    WrongSpelled();
  }

  lemma {:induction false} IntSpelled(n: int)
    ensures ReplyText(Num(n)) == ":" + IntText(n) + "\r\n"
  {
  }

  /** An array is its number of items, then a line for each. */
  lemma {:induction false} ArraySpelled(items: seq<string>, x: string)
    ensures Replies.ArrayText([]) == "*0\r\n"
    ensures Replies.ArrayText(items + [x])
         == "*" + IntText(|items| + 1) + "\r\n" + Replies.Bulks(items) + ("$" + x + "\r\n")
    ensures Replies.Bulks([]) == "" && Replies.Bulks(items + [x]) == Replies.Bulks(items) + ("$" + x + "\r\n")
  {
    hide IntText;
    DigitsSpelled();
    Replies.BulksAppend(items, x);
    Associative("*" + IntText(|items| + 1) + "\r\n", Replies.Bulks(items), "$" + x + "\r\n");
  }

  lemma {:induction false} DigitsSpelled()
    ensures IntText(0) == "0" && IntText(1) == "1" && IntText(-1) == "-1" && IntText(-2) == "-2"
  {
  }

  lemma {:induction false} NumsSpelled()
    ensures ReplyText(Num(-1)) == ":-1\r\n" && ReplyText(Num(-2)) == ":-2\r\n" && ReplyText(Num(0)) == ":0\r\n"
    ensures ReplyText(Flag(true)) == ":1\r\n" && ReplyText(Flag(false)) == ":0\r\n"
  {
    hide IntText;
    DigitsSpelled();
  }

  lemma {:induction false} WordsSpelled()
    ensures ReplyText(Done) == "+OK\r\n"
    ensures ReplyText(Outcome.Text(None)) == "$(nil)\r\n"
    ensures forall v {:trigger ReplyText(Outcome.Text(Some(v)))} :: ReplyText(Outcome.Text(Some(v))) == "$" + v + "\r\n"
  {
    hide IntText;
  }

  lemma {:induction false} WrongSpelled()
    ensures ReplyText(WrongType) == WRONG
  {
    WrongPieces("WRONGTYPE Operation against a key", " holding the wrong kind of value");
  }

  lemma {:induction false} WrongPieces(a: string, b: string)
    ensures "-" + (a + b) + "\r\n" == ("-" + a) + b + "\r\n"
  {
    Associative("-", a, b);
  }

  // ----- Keys and deadlines -----

  /** SET, then GET at any later or earlier time: the value, until its seconds have passed. */
  lemma {:induction false} SetThenGet(s: State, now: int, later: int, k: string, x: string, ttl: Option<int>)
    requires s.Valid()
    ensures var u := Next(s, now, k, Act.Set(x, ttl));
            && Told(s, now, k, Act.Set(x, ttl)) == "+OK\r\n"
            && Told(u, later, k, Act.Get) ==
               if ttl.Some? && later >= now + ttl.value * 1000 then "$(nil)\r\n" else "$" + x + "\r\n"
  {
    hide State.Valid, Told, Next, ReplyText;
    Spelled();
    Acts(s, now, k, Act.Set(x, ttl));
    GetActs(Next(s, now, k, Act.Set(x, ttl)), later, k);
  }

  /** What a key that is missing or past its deadline is answered. */
  lemma {:induction false} OnMissing(s: State, now: int, k: string)
    requires s.Valid() && !s.Live(k, now)
    ensures Told(s, now, k, Act.Get) == "$(nil)\r\n"
    ensures Told(s, now, k, Del) == ":0\r\n" && Told(s, now, k, Exists) == ":0\r\n"
    ensures Told(s, now, k, Ttl) == ":-2\r\n" && Told(s, now, k, Persist) == ":0\r\n"
    ensures forall n :: Told(s, now, k, Expire(n)) == ":0\r\n" && !Next(s, now, k, Expire(n)).Has(k)
  {
    hide State.Valid, Told, Next, ReplyText;
    Spelled();
    GetActs(s, now, k);
    Acts(s, now, k, Del);
    Acts(s, now, k, Exists);
    Acts(s, now, k, Ttl);
    Acts(s, now, k, Persist);
    forall n ensures Told(s, now, k, Expire(n)) == ":0\r\n" && !Next(s, now, k, Expire(n)).Has(k) {
      Acts(s, now, k, Expire(n));
    }
  }

  /** And what a live one is: DEL removes it, EXPIRE and PERSIST change its deadline and nothing else. */
  lemma {:induction false} OnLive(s: State, now: int, k: string, n: int)
    requires s.Valid() && s.Live(k, now)
    ensures Told(s, now, k, Exists) == ":1\r\n"
    ensures Told(s, now, k, Del) == ":1\r\n" && !Next(s, now, k, Del).Has(k)
    ensures var u := Next(s, now, k, Expire(n));
            && Told(s, now, k, Expire(n)) == ":1\r\n"
            && u.Lookup(k) == s.Lookup(k) && u.Deadline(k) == Some(now + n * 1000)
    ensures var u := Next(s, now, k, Persist);
            && Told(s, now, k, Persist) == (if s.Deadline(k).Some? then ":1\r\n" else ":0\r\n")
            && u.Lookup(k) == s.Lookup(k) && u.Deadline(k) == None
  {
    hide State.Valid, Told, Next, ReplyText;
    Spelled();
    Acts(s, now, k, Del);
    Acts(s, now, k, Exists);
    Acts(s, now, k, Expire(n));
    Acts(s, now, k, Persist);
  }

  /** TTL answers -1 without a deadline, and otherwise the seconds left, a begun one counted whole. */
  lemma {:induction false} TtlAnswers(s: State, now: int, k: string, seconds: int)
    requires s.Valid() && s.Live(k, now)
    requires s.Deadline(k).Some? ==> (seconds - 1) * 1000 < s.Deadline(k).value - now <= seconds * 1000
    ensures Told(s, now, k, Ttl) == if s.Deadline(k).None? then ":-1\r\n" else ":" + IntText(seconds) + "\r\n"
  {
    hide State.Valid, Told, Next, ReplyText, IntText;
    Spelled();
    Acts(s, now, k, Ttl);
    IntSpelled(seconds);
    assert s.Deadline(k).Some? ==> s.Deadline(k).value - now > 0;
  }

  /** EXPIRE, then TTL: what is left of the seconds given; none, once they have passed. */
  lemma {:induction false} ExpireThenTtl(s: State, now: int, later: int, k: string, given: int, left: int)
    requires s.Valid() && s.Live(k, now)
    requires (left - 1) * 1000 < now + given * 1000 - later <= left * 1000
    ensures Told(Next(s, now, k, Expire(given)), later, k, Ttl) ==
            if later >= now + given * 1000 then ":-2\r\n" else ":" + IntText(left) + "\r\n"
  {
    hide State.Valid, Told, Next, IntText;
    var u := Next(s, now, k, Expire(given));
    OnLive(s, now, k, given);
    NextValid(s, now, k, Expire(given));
    if u.Live(k, later) {
      TtlAnswers(u, later, k, left);
    } else {
      OnMissing(u, later, k);
    }
  }

  lemma {:induction false} NextValid(s: State, now: int, k: string, act: Act)
    requires s.Valid() && !act.Get?
    ensures Next(s, now, k, act).Valid()
  {
    hide State.Valid, Told, Next, Meaning;
    Acts(s, now, k, act);
  }

  /** No command but SET, EXPIRE and PERSIST moves the deadline of a key that stays. */
  lemma {:induction false} DeadlineStays(s: State, now: int, k: string, act: Act)
    requires s.Valid() && !act.Set? && !act.Expire? && !act.Persist?
    ensures var u := Next(s, now, k, act);
            u.Has(k) ==> u.Deadline(k) == if s.Live(k, now) then s.Deadline(k) else None
  {
    hide State.Valid, Told, Next, PutAll, RemoveAll, StoreSpec.Flat, Reverse;
    if act.Get? { GetActs(s, now, k); } else { Acts(s, now, k, act); }
  }

  /** Which commands count as a use of a live key that stays: it is then the most recently used one; the
      others leave the order as it is. EXISTS and TTL never do, nor does a command of another kind. */
  predicate Uses(act: Act, v: Value, until: Option<int>) {
    match act
    case Set(_, _) => true
    case Expire(_) => true
    case Persist => until.Some?
    case Get => v.Str?
    case LPush(_) | RPush(_) | LPop | RPop | LRange(_, _) | LLen => v.List?
    case HSet(_) | HGet(_) | HGetAll | HLen => v.Hash?
    case HDel(fs) => v.Hash? && exists f :: f in fs && f in v.fields.at
    case _ => false
  }

  lemma {:induction false} UseMoves(s: State, now: int, k: string, act: Act)
    requires s.Valid() && s.Live(k, now)
    ensures var u := Next(s, now, k, act);
            u.Has(k) ==>
              if Uses(act, s.values.at[k], s.Deadline(k)) then u.recency != [] && u.recency[0] == k
              else u.recency == s.recency
  {
    hide State.Valid, Told, Next, PutAll, RemoveAll, StoreSpec.Flat, Reverse, Slice, Expires, ReplyText;
    if act.Get? {
      GetActs(s, now, k);
    } else {
      Acts(s, now, k, act);
      if act.HDel? && s.values.at[k].Hash? {
        HashFields(s, k);
        RemovedCount(s.values.at[k].fields, act.removed);
      }
    }
  }

  /** Removing fields shortens a hash exactly if it has one of them. */
  lemma {:induction false} RemovedCount(h: OMap<string>, fs: seq<string>)
    requires h.Valid()
    ensures var u := RemoveAll(h, fs);
            && u.Valid()
            && (forall f :: f in u.at <==> f in h.at && f !in fs)
            && (forall f :: f in u.at ==> u.at[f] == h.at[f])
            && |u.keys| <= |h.keys|
            && (|u.keys| < |h.keys| <==> exists f :: f in fs && f in h.at)
            && (u.keys == [] <==> forall f :: f in h.at ==> f in fs)
    decreases fs
  {
    if fs != [] {
      RemoveValid(h, fs[0]);
      hide OMap.Valid;
      RemovedCount(h.Remove(fs[0]), fs[1..]);
      if exists f :: f in fs && f in h.at {
        var f :| f in fs && f in h.at;
        if f != fs[0] && fs[0] !in h.at { assert f in fs[1..] && f in h.Remove(fs[0]).at; }
      }
      if exists f :: f in fs[1..] && f in h.Remove(fs[0]).at {
        var f :| f in fs[1..] && f in h.Remove(fs[0]).at;
        assert f in fs && f in h.at;
      }
    }
    EmptyKeys(RemoveAll(h, fs));
  }

  lemma {:induction false} EmptyKeys(h: OMap<string>)
    requires h.Valid()
    ensures h.keys == [] <==> forall f :: f !in h.at
  {
    if h.keys != [] { assert h.keys[0] in h.keys; }
  }

  /** A command for another kind of value is refused and changes nothing of the key. */
  lemma {:induction false} WrongKind(s: State, now: int, k: string, act: Act)
    requires s.Valid() && s.Live(k, now)
    requires match act
             case LPush(_) | RPush(_) | LPop | RPop | LRange(_, _) | LLen => !s.values.at[k].List?
             case HSet(_) | HGet(_) | HDel(_) | HGetAll | HLen => !s.values.at[k].Hash?
             case Get => !s.values.at[k].Str?
             case _ => false
    ensures var u := Next(s, now, k, act);
            && Told(s, now, k, act) == WRONG
            && u.Lookup(k) == s.Lookup(k) && u.Deadline(k) == s.Deadline(k) && u.recency == s.recency
  {
    hide State.Valid, Told, Next, ReplyText;
    Spelled();
    if act.Get? { GetActs(s, now, k); } else { Acts(s, now, k, act); }
  }

  // ----- Lists -----

  /** The list commands on a key that is missing or past its deadline. */
  lemma {:induction false} ListMissing(s: State, now: int, k: string, from: int, to: int)
    requires s.Valid() && !s.Live(k, now)
    ensures Told(s, now, k, LPop) == "$(nil)\r\n" && Told(s, now, k, RPop) == "$(nil)\r\n"
    ensures Told(s, now, k, LLen) == ":0\r\n" && Told(s, now, k, LRange(from, to)) == Replies.ArrayText([])
  {
    hide State.Valid, Told, Next, ReplyText, Becomes, Expires;
    Spelled();
    ItemsSpelled([]);
    Acts(s, now, k, LPop);
    Acts(s, now, k, RPop);
    Acts(s, now, k, LLen);
    Acts(s, now, k, LRange(from, to));
  }

  /** Pushes on such a key begin a list, without a deadline; LPUSH turns the values round. */
  lemma {:induction false} PushOnMissing(s: State, now: int, k: string, xs: seq<string>)
    requires s.Valid() && !s.Live(k, now)
    ensures var u := Next(s, now, k, RPush(xs));
            Told(s, now, k, RPush(xs)) == ":" + IntText(|xs|) + "\r\n" && ListAt(u, k, xs)
    ensures var u := Next(s, now, k, LPush(xs));
            Told(s, now, k, LPush(xs)) == ":" + IntText(|xs|) + "\r\n" && ListAt(u, k, Backwards(xs))
  {
    hide State.Valid, Told, Next, ReplyText, IntText, Reverse, Backwards;
    IntSpelled(|xs|);
    ReverseBackwards(xs);
    Acts(s, now, k, RPush(xs));
    Acts(s, now, k, LPush(xs));
  }

  lemma {:induction false} ItemsSpelled(items: seq<string>)
    ensures ReplyText(Items(items)) == Replies.ArrayText(items)
  {
  }

  function Backwards(xs: seq<string>): (r: seq<string>)
    ensures |r| == |xs| && forall i :: 0 <= i < |r| ==> r[i] == xs[|xs| - 1 - i]
  {
    seq(|xs|, i requires 0 <= i < |xs| => xs[|xs| - 1 - i])
  }

  lemma {:induction false} ReverseBackwards(xs: seq<string>)
    ensures Reverse(xs) == Backwards(xs)
  {
    if xs != [] {
      ReverseBackwards(xs[1..]);
      assert Backwards(xs) == Backwards(xs[1..]) + [xs[0]];
    }
  }

  /** The key holds this list for good. */
  ghost predicate ListAt(s: State, k: string, l: seq<string>) {
    s.Valid() && s.Lookup(k) == Some(List(l)) && s.Deadline(k) == None
  }

  /** Pushes on a live list lengthen it at their end, the first value pushed at the head ending up
      deepest. */
  lemma {:induction false} PushOnLive(s: State, now: int, k: string, l: seq<string>, xs: seq<string>)
    requires s.Valid() && Held(s, now, k) == Some(List(l))
    ensures Told(s, now, k, RPush(xs)) == ":" + IntText(|l| + |xs|) + "\r\n"
    ensures Told(s, now, k, LPush(xs)) == ":" + IntText(|l| + |xs|) + "\r\n"
    ensures Next(s, now, k, RPush(xs)).Lookup(k) == Some(List(l + xs))
    ensures Next(s, now, k, LPush(xs)).Lookup(k) == Some(List(Backwards(xs) + l))
  {
    hide State.Valid, Told, Next, ReplyText, IntText, Reverse, Backwards, Expires;
    IntSpelled(|l| + |xs|);
    ReverseBackwards(xs);
    Acts(s, now, k, RPush(xs));
    Acts(s, now, k, LPush(xs));
  }

  /** Pops take the element at their end, and the key with the last one; LLEN counts. */
  lemma {:induction false} ListLive(s: State, now: int, k: string, l: seq<string>)
    requires s.Valid() && Held(s, now, k) == Some(List(l)) && l != []
    ensures Told(s, now, k, LLen) == ":" + IntText(|l|) + "\r\n"
    ensures Told(s, now, k, LPop) == "$" + l[0] + "\r\n"
    ensures Next(s, now, k, LPop).Lookup(k) == if |l| == 1 then None else Some(List(l[1..]))
    ensures Told(s, now, k, RPop) == "$" + l[|l| - 1] + "\r\n"
    ensures Next(s, now, k, RPop).Lookup(k) == if |l| == 1 then None else Some(List(l[..|l| - 1]))
  {
    hide State.Valid, Told, Next, ReplyText, IntText, Expires;
    Spelled();
    IntSpelled(|l|);
    Acts(s, now, k, LLen);
    Acts(s, now, k, LPop);
    Acts(s, now, k, RPop);
  }

  /** What a row of the same command at the given times is answered, and the store it leaves. */
  function ToldAll(s: State, k: string, act: Act, times: seq<int>): seq<string>
    decreases times
  {
    if times == [] then []
    else [Told(s, times[0], k, act)] + ToldAll(Next(s, times[0], k, act), k, act, times[1..])
  }

  function NextAll(s: State, k: string, act: Act, times: seq<int>): State
    decreases times
  {
    if times == [] then s else NextAll(Next(s, times[0], k, act), k, act, times[1..])
  }

  /** The replies that carry these values. */
  function Values(xs: seq<string>): (r: seq<string>)
    ensures |r| == |xs| && forall i :: 0 <= i < |r| ==> r[i] == "$" + xs[i] + "\r\n"
  {
    seq(|xs|, i requires 0 <= i < |xs| => "$" + xs[i] + "\r\n")
  }

  lemma {:induction false} PopsFromHead(s: State, k: string, l: seq<string>, times: seq<int>)
    requires ListAt(s, k, l) && l != [] && |times| == |l|
    ensures ToldAll(s, k, LPop, times) == Values(l) && !NextAll(s, k, LPop, times).Has(k)
    decreases l
  {
    hide State.Valid, Told, Next;
    var u := Next(s, times[0], k, LPop);
    ListLive(s, times[0], k, l);
    NextValid(s, times[0], k, LPop);
    DeadlineStays(s, times[0], k, LPop);
    if |l| > 1 {
      PopsFromHead(u, k, l[1..], times[1..]);
    } else {
      assert times[1..] == [] && ToldAll(u, k, LPop, []) == [] && NextAll(u, k, LPop, []) == u;
    }
    assert Values(l) == ["$" + l[0] + "\r\n"] + Values(l[1..]);
  }

  lemma {:induction false} PopsFromTail(s: State, k: string, l: seq<string>, times: seq<int>)
    requires ListAt(s, k, l) && l != [] && |times| == |l|
    ensures ToldAll(s, k, RPop, times) == Values(Backwards(l)) && !NextAll(s, k, RPop, times).Has(k)
    decreases l
  {
    hide State.Valid, Told, Next;
    var u, n := Next(s, times[0], k, RPop), |l| - 1;
    ListLive(s, times[0], k, l);
    NextValid(s, times[0], k, RPop);
    DeadlineStays(s, times[0], k, RPop);
    if n > 0 {
      PopsFromTail(u, k, l[..n], times[1..]);
    } else {
      assert times[1..] == [] && ToldAll(u, k, RPop, []) == [] && NextAll(u, k, RPop, []) == u;
    }
    assert Values(Backwards(l)) == ["$" + l[n] + "\r\n"] + Values(Backwards(l[..n]));
  }

  /** A queue: what RPUSH has put on a missing key, LPOPs answer in the same order; a stack: RPOPs answer
      it backwards. LPUSH is the other way about. The last pop takes the key, whenever the pops come. */
  lemma {:induction false} QueueAndStack(s: State, now: int, k: string, xs: seq<string>, times: seq<int>)
    requires s.Valid() && !s.Live(k, now) && xs != [] && |times| == |xs|
    ensures var u := Next(s, now, k, RPush(xs));
            && ToldAll(u, k, LPop, times) == Values(xs) && !NextAll(u, k, LPop, times).Has(k)
            && ToldAll(u, k, RPop, times) == Values(Backwards(xs)) && !NextAll(u, k, RPop, times).Has(k)
    ensures var u := Next(s, now, k, LPush(xs));
            && ToldAll(u, k, LPop, times) == Values(Backwards(xs)) && !NextAll(u, k, LPop, times).Has(k)
            && ToldAll(u, k, RPop, times) == Values(xs) && !NextAll(u, k, RPop, times).Has(k)
  {
    hide ListAt, Next, Told, NextAll, ToldAll;
    PushOnMissing(s, now, k, xs);
    PopsFromHead(Next(s, now, k, RPush(xs)), k, xs, times);
    PopsFromTail(Next(s, now, k, RPush(xs)), k, xs, times);
    PopsFromHead(Next(s, now, k, LPush(xs)), k, Backwards(xs), times);
    PopsFromTail(Next(s, now, k, LPush(xs)), k, Backwards(xs), times);
    assert Backwards(Backwards(xs)) == xs;
  }

  /** LPUSH, then LPOP: the value pushed, and the list as it was, deadline included. */
  lemma {:induction false} PushThenPop(s: State, now: int, k: string, l: seq<string>, x: string)
    requires s.Valid() && Held(s, now, k) == Some(List(l)) && l != []
    ensures var u := Next(s, now, k, LPush([x]));
            && Told(u, now, k, LPop) == "$" + x + "\r\n"
            && Next(u, now, k, LPop).Lookup(k) == s.Lookup(k) && Next(u, now, k, LPop).Deadline(k) == s.Deadline(k)
  {
    hide State.Valid, Told, Next;
    var u := Next(s, now, k, LPush([x]));
    PushOnLive(s, now, k, l, [x]);
    NextValid(s, now, k, LPush([x]));
    DeadlineStays(s, now, k, LPush([x]));
    assert Backwards([x]) == [x];
    ListLive(u, now, k, [x] + l);
    DeadlineStays(u, now, k, LPop);
    TailOfAppend([x], l);
    NothingAppended(l);
  }

  /** And RPUSH, then RPOP. */
  lemma {:induction false} PushThenPopTail(s: State, now: int, k: string, l: seq<string>, x: string)
    requires s.Valid() && Held(s, now, k) == Some(List(l)) && l != []
    ensures var u := Next(s, now, k, RPush([x]));
            && Told(u, now, k, RPop) == "$" + x + "\r\n"
            && Next(u, now, k, RPop).Lookup(k) == s.Lookup(k) && Next(u, now, k, RPop).Deadline(k) == s.Deadline(k)
  {
    hide State.Valid, Told, Next, Backwards;
    var u := Next(s, now, k, RPush([x]));
    PushOnLive(s, now, k, l, [x]);
    NextValid(s, now, k, RPush([x]));
    DeadlineStays(s, now, k, RPush([x]));
    ListLive(u, now, k, l + [x]);
    DeadlineStays(u, now, k, RPop);
    FrontOfAppend(l, [x]);
    NothingAppended(l);
  }

  /** LRANGE answers the elements between its bounds, both included; a negative bound counts from the end,
      and bounds beyond the ends are the ends. It changes nothing of the list. */
  lemma {:induction false} RangeAnswers(s: State, now: int, k: string, l: seq<string>, start: int, stop: int)
    returns (items: seq<string>)
    requires s.Valid() && Held(s, now, k) == Some(List(l))
    ensures Told(s, now, k, LRange(start, stop)) == Replies.ArrayText(items)
    ensures Next(s, now, k, LRange(start, stop)).Lookup(k) == s.Lookup(k)
    ensures var a, b := if start < 0 then |l| + start else start, if stop < 0 then |l| + stop else stop;
            forall i :: 0 <= i < |l| && a <= i <= b ==>
              0 <= i - (if a < 0 then 0 else a) < |items| && items[i - (if a < 0 then 0 else a)] == l[i]
    ensures var a, b := if start < 0 then |l| + start else start, if stop < 0 then |l| + stop else stop;
            forall j :: 0 <= j < |items| ==>
              var i := j + (if a < 0 then 0 else a);
              0 <= i < |l| && a <= i <= b && items[j] == l[i]
  {
    hide State.Valid, Told, Next, ReplyText;
    Acts(s, now, k, LRange(start, stop));
    items := Slice(l, start, stop);
    ItemsSpelled(items);
  }

  // ----- Hashes -----

  /** The hash commands on a key that is missing or past its deadline. */
  lemma {:induction false} HashMissing(s: State, now: int, k: string, f: string, fs: seq<string>)
    requires s.Valid() && !s.Live(k, now)
    ensures Told(s, now, k, HGet(f)) == "$(nil)\r\n" && Told(s, now, k, HDel(fs)) == ":0\r\n"
    ensures Told(s, now, k, HLen) == ":0\r\n" && Told(s, now, k, HGetAll) == Replies.ArrayText([])
  {
    hide State.Valid, Told, Next, ReplyText, Becomes, Expires, Meaning;
    Spelled();
    ItemsSpelled([]);
    forall act | act == HGet(f) || act == HDel(fs) || act == HLen || act == HGetAll
      ensures Told(s, now, k, act) == ReplyText(Meaning(act, now, None, None).outcome)
    {
      Acts(s, now, k, act);
    }
    NoHash(now, f, fs);
  }

  lemma {:induction false} NoHash(now: int, f: string, fs: seq<string>)
    ensures Meaning(HGet(f), now, None, None).outcome == Outcome.Text(None)
    ensures Meaning(HDel(fs), now, None, None).outcome == Num(0)
    ensures Meaning(HLen, now, None, None).outcome == Num(0)
    ensures Meaning(HGetAll, now, None, None).outcome == Items([])
  {
  }

  /** The hash that a key holds for HSET: none yet is an empty one. */
  predicate HashAt(s: State, now: int, k: string, h: OMap<string>) {
    Held(s, now, k) == Some(Hash(h)) || (Held(s, now, k) == None && h == OMap([], map[]))
  }

  /** The value that the pairs give a field: the last one counts. */
  function Given(pairs: seq<(string, string)>, f: string): Option<string> {
    if pairs == [] then None
    else if pairs[|pairs| - 1].0 == f then Some(pairs[|pairs| - 1].1)
    else Given(pairs[..|pairs| - 1], f)
  }

  /** `u` is `h` with the pairs set. */
  ghost predicate Gives(u: OMap<string>, h: OMap<string>, pairs: seq<(string, string)>) {
    && u.Valid() && |u.keys| >= |h.keys|
    && (forall f :: f in u.at <==> f in h.at || Given(pairs, f).Some?)
    && (forall f :: f in u.at ==> u.at[f] == if Given(pairs, f).Some? then Given(pairs, f).value else h.at[f])
  }

  lemma {:induction false} GivesMore(u: OMap<string>, h: OMap<string>, pairs: seq<(string, string)>,
                                     p: (string, string))
    requires Gives(u, h, pairs)
    ensures Gives(u.Put(p.0, p.1), h, pairs + [p])
  {
    hide OMap.Valid, Given;
    PutValid(u, p.0, p.1);
    var w := u.Put(p.0, p.1);
    forall f
      ensures f in w.at <==> f in h.at || Given(pairs + [p], f).Some?
      ensures f in w.at ==> w.at[f] == if Given(pairs + [p], f).Some? then Given(pairs + [p], f).value else h.at[f]
    {
      GivenMore(pairs, p, f);
    }
  }

  lemma {:induction false} GivenMore(pairs: seq<(string, string)>, p: (string, string), f: string)
    ensures Given(pairs + [p], f) == if f == p.0 then Some(p.1) else Given(pairs, f)
  {
    FrontOfAppend(pairs, [p]);
    NothingAppended(pairs);
  }

  lemma {:induction false} PutAllGives(h: OMap<string>, pairs: seq<(string, string)>)
    requires h.Valid()
    ensures Gives(PutAll(h, pairs), h, pairs)
  {
    if pairs != [] {
      hide PutAll, Gives;
      var n := |pairs| - 1;
      PutAllGives(h, pairs[..n]);
      assert pairs == pairs[..n] + [pairs[n]];
      PutAllLast(h, pairs[..n], pairs[n]);
      GivesMore(PutAll(h, pairs[..n]), h, pairs[..n], pairs[n]);
    }
  }

  lemma {:induction false} PutAllLast(h: OMap<string>, pairs: seq<(string, string)>, p: (string, string))
    ensures PutAll(h, pairs + [p]) == PutAll(h, pairs).Put(p.0, p.1)
    decreases pairs
  {
    if pairs == [] {
      assert pairs + [p] == [p];
    } else {
      TailOfAppend(pairs, [p]);
      PutAllLast(h.Put(pairs[0].0, pairs[0].1), pairs[1..], p);
    }
  }

  /** HSET, then HGET of any field: the last value given to it, else the one it had, else none. */
  lemma {:induction false} SetThenGetField(s: State, now: int, k: string, h: OMap<string>,
                                           pairs: seq<(string, string)>, f: string)
    requires s.Valid() && HashAt(s, now, k, h) && h.Valid()
    ensures var u := Next(s, now, k, HSet(pairs));
            var v := if Given(pairs, f).Some? then Given(pairs, f) else if f in h.at then Some(h.at[f]) else None;
            Told(u, now, k, HGet(f)) == if v.Some? then "$" + v.value + "\r\n" else "$(nil)\r\n"
  {
    hide State.Valid, Told, Next, ReplyText, PutAll, OMap.Valid;
    Spelled();
    PutAllGives(h, pairs);
    HashWritten(s, now, k, h, pairs);
    Acts(Next(s, now, k, HSet(pairs)), now, k, HGet(f));
  }

  /** HSET answers by how many fields the hash has grown, which is what HLEN then answers more. */
  lemma {:induction false} SetCountsFields(s: State, now: int, k: string, h: OMap<string>, pairs: seq<(string, string)>)
    returns (n: nat)
    requires s.Valid() && HashAt(s, now, k, h) && h.Valid()
    ensures Told(s, now, k, HSet(pairs)) == ":" + IntText(n) + "\r\n"
    ensures Told(Next(s, now, k, HSet(pairs)), now, k, HLen) == ":" + IntText(|h.keys| + n) + "\r\n"
  {
    hide State.Valid, Told, Next, ReplyText, IntText, PutAll, OMap.Valid;
    PutAllGives(h, pairs);
    n := |PutAll(h, pairs).keys| - |h.keys|;
    HashWritten(s, now, k, h, pairs);
    IntSpelled(n);
    IntSpelled(|h.keys| + n);
    Acts(Next(s, now, k, HSet(pairs)), now, k, HLen);
  }

  lemma {:induction false} HashWritten(s: State, now: int, k: string, h: OMap<string>, pairs: seq<(string, string)>)
    requires s.Valid() && HashAt(s, now, k, h)
    ensures var u, after := Next(s, now, k, HSet(pairs)), PutAll(h, pairs);
            && u.Valid() && Held(u, now, k) == Some(Hash(after))
            && Told(s, now, k, HSet(pairs)) == ReplyText(Num(|after.keys| - |h.keys|))
  {
    hide State.Valid, Told, Next, ReplyText, PutAll;
    Acts(s, now, k, HSet(pairs));
    StaysLive(s, Next(s, now, k, HSet(pairs)), now, k);
  }

  lemma {:induction false} StaysLive(s: State, u: State, now: int, k: string)
    requires u.Has(k) && u.Deadline(k) == Until(s, now, k)
    ensures u.Live(k, now)
  {
  }

  /** HDEL answers how many fields it has removed; the others stay, and the key goes with the last. */
  lemma {:induction false} FieldsRemoved(s: State, now: int, k: string, h: OMap<string>, fs: seq<string>)
    requires s.Valid() && Held(s, now, k) == Some(Hash(h)) && h.Valid()
    ensures var u := Next(s, now, k, HDel(fs));
            if forall f :: f in h.at ==> f in fs then
              !u.Has(k) && Told(s, now, k, HDel(fs)) == ":" + IntText(|h.keys|) + "\r\n"
            else
              exists g: OMap<string> ::
                && u.Lookup(k) == Some(Hash(g)) && g.Valid() && |g.keys| <= |h.keys|
                && (forall f :: f in g.at <==> f in h.at && f !in fs)
                && (forall f :: f in g.at ==> g.at[f] == h.at[f])
                && Told(s, now, k, HDel(fs)) == ":" + IntText(|h.keys| - |g.keys|) + "\r\n"
  {
    hide State.Valid, Told, Next, ReplyText, IntText, RemoveAll, OMap.Valid;
    RemovedCount(h, fs);
    var g := RemoveAll(h, fs);
    IntSpelled(|h.keys| - |g.keys|);
    Acts(s, now, k, HDel(fs));
    if g.keys != [] && |g.keys| == |h.keys| {
      SameHash(h, g, fs);
    }
  }

  lemma {:induction false} SameHash(h: OMap<string>, g: OMap<string>, fs: seq<string>)
    requires g == RemoveAll(h, fs) && h.Valid() && |g.keys| == |h.keys|
    ensures g == h
    decreases fs
  {
    if fs != [] {
      RemoveValid(h, fs[0]);
      RemovedCount(h.Remove(fs[0]), fs[1..]);
      hide OMap.Valid;
      assert fs[0] !in h.at;
      NotThere(h, fs[0]);
      SameHash(h.Remove(fs[0]), g, fs[1..]);
    }
  }

  lemma {:induction false} NotThere(h: OMap<string>, f: string)
    requires h.Valid() && f !in h.at
    ensures h.Remove(f) == h
  {
    assert f !in h.keys;
    assert h.at - {f} == h.at;
  }

  /** HGET, HLEN and HGETALL on a live hash: HGETALL lists fields and values in turn, in field order. */
  lemma {:induction false} HashLive(s: State, now: int, k: string, h: OMap<string>, f: string)
    returns (items: seq<string>)
    requires s.Valid() && Held(s, now, k) == Some(Hash(h)) && h.Valid()
    ensures Told(s, now, k, HGet(f)) == if f in h.at then "$" + h.at[f] + "\r\n" else "$(nil)\r\n"
    ensures Told(s, now, k, HLen) == ":" + IntText(|h.keys|) + "\r\n"
    ensures Told(s, now, k, HGetAll) == Replies.ArrayText(items) && |items| == 2 * |h.keys|
    ensures forall i :: 0 <= i < |h.keys| ==>
              h.keys[i] in h.at && items[2 * i] == h.keys[i] && items[2 * i + 1] == h.at[h.keys[i]]
  {
    hide State.Valid, Told, Next, ReplyText, IntText, StoreSpec.Flat, Becomes, Expires;
    Spelled();
    IntSpelled(|h.keys|);
    Acts(s, now, k, HGet(f));
    Acts(s, now, k, HLen);
    Acts(s, now, k, HGetAll);
    items := StoreSpec.Flat(h.keys, h.at);
    ItemsSpelled(items);
    FlatLists(h.keys, h.at);
  }

  lemma {:induction false} FlatLists(fields: seq<string>, at: map<string, string>)
    requires forall i :: 0 <= i < |fields| ==> fields[i] in at
    ensures var items := StoreSpec.Flat(fields, at);
            && |items| == 2 * |fields|
            && forall i :: 0 <= i < |fields| ==> items[2 * i] == fields[i] && items[2 * i + 1] == at[fields[i]]
  {
    if fields != [] {
      FlatLists(fields[1..], at);
      var rest := StoreSpec.Flat(fields[1..], at);
      forall i | 0 < i < |fields|
        ensures StoreSpec.Flat(fields, at)[2 * i] == fields[i] && StoreSpec.Flat(fields, at)[2 * i + 1] == at[fields[i]]
      {
        assert rest[2 * (i - 1)] == fields[1..][i - 1] && rest[2 * (i - 1) + 1] == at[fields[1..][i - 1]];
      }
    }
  }

  // ----- What is logged -----

  /** The commands that change something, and SET: what goes to the append-only file. An HSET that adds no
      field does not. */
  ghost predicate Changes(act: Act, v: Option<Value>, until: Option<int>) {
    match act
    case Set(_, _) => true
    case Del => v.Some?
    case Expire(_) => v.Some?
    case Persist => v.Some? && until.Some?
    case LPush(_) => v.None? || v.value.List?
    case RPush(_) => v.None? || v.value.List?
    case LPop => v.Some? && v.value.List? && v.value.elems != []
    case RPop => v.Some? && v.value.List? && v.value.elems != []
    case HSet(pairs) =>
      || (v.None? && pairs != [])
      || (v.Some? && v.value.Hash? && exists i :: 0 <= i < |pairs| && pairs[i].0 !in v.value.fields.at)
    case HDel(fs) => v.Some? && v.value.Hash? && exists f :: f in fs && f in v.value.fields.at
    case _ => false
  }

  lemma {:induction false} LoggedExactly(s: State, now: int, k: string, act: Act)
    requires s.Valid()
    ensures Execute(s, now, OnData(k, act)).logged <==> Changes(act, Held(s, now, k), Until(s, now, k))
  {
    hide State.Valid, Meaning, Commit, Gate, ReplyText;
    if act.Get? {
      GetUnlogged(s, now, k);
    } else {
      var g := Gate(s, now, k);
      GateValid(s, now, k);
      GateLive(s, now, k);
      if !g.Has(k) { Missing(g, k); }
      HeldWell(g, k);
      OutcomeLogged(act, now, Held(s, now, k), Until(s, now, k));
    }
  }

  lemma {:induction false} HeldWell(s: State, k: string)
    requires s.Valid()
    ensures s.Has(k) ==> WellFormed(s.values.at[k])
  {
  }

  lemma {:induction false} GetUnlogged(s: State, now: int, k: string)
    ensures !Execute(s, now, OnData(k, Act.Get)).logged
  {
    hide Step;
  }

  lemma {:induction false} OutcomeLogged(act: Act, now: int, v: Option<Value>, d: Option<int>)
    requires v.Some? ==> WellFormed(v.value)
    ensures Logs(act, Meaning(act, now, v, d).outcome) <==> Changes(act, v, d)
  {
    hide PutAll, RemoveAll, StoreSpec.Flat, Reverse, OMap.Valid;
    if act.HSet? && (v.Some? ==> v.value.Hash?) {
      var h := if v.Some? then v.value.fields else OMap([], map[]);
      EmptyValid();
      Grows(h, act.pairs);
      if v.None? && act.pairs != [] { assert act.pairs[0].0 !in h.at; }
    } else if act.HDel? && v.Some? && v.value.Hash? {
      RemovedCount(v.value.fields, act.removed);
    }
  }

  lemma {:induction false} EmptyValid()
    ensures var none: OMap<string> := OMap([], map[]); none.Valid()
  {
  }

  lemma {:induction false} Grows(h: OMap<string>, pairs: seq<(string, string)>)
    requires h.Valid()
    ensures |PutAll(h, pairs).keys| > |h.keys| <==> exists i :: 0 <= i < |pairs| && pairs[i].0 !in h.at
    ensures |PutAll(h, pairs).keys| >= |h.keys|
    decreases pairs
  {
    if pairs != [] {
      var u := h.Put(pairs[0].0, pairs[0].1);
      PutValid(h, pairs[0].0, pairs[0].1);
      hide OMap.Valid;
      Grows(u, pairs[1..]);
      forall i | 0 < i < |pairs| ensures pairs[i] == pairs[1..][i - 1] {}
      if exists i :: 0 <= i < |pairs| && pairs[i].0 !in h.at {
        var i :| 0 <= i < |pairs| && pairs[i].0 !in h.at;
        if pairs[0].0 in h.at { assert pairs[1..][i - 1].0 !in u.at; }
      }
      if exists i :: 0 <= i < |pairs[1..]| && pairs[1..][i].0 !in u.at {
        var i :| 0 <= i < |pairs[1..]| && pairs[1..][i].0 !in u.at;
        assert pairs[i + 1].0 !in h.at;
      }
    }
  }

  // ----- What is counted -----

  /** The commands that count as one mutation. A push that begins a list does not; an HSET that only
      overwrites fields does. */
  ghost predicate Counts(act: Act, v: Option<Value>, until: Option<int>) {
    match act
    case LPush(_) => v.Some? && v.value.List?
    case RPush(_) => v.Some? && v.value.List?
    case HSet(pairs) => pairs != [] && (v.None? || v.value.Hash?)
    case _ => Changes(act, v, until)
  }

  /** The mutation count without the keys that have expired or been evicted, each of which is counted once. */
  function Own(s: State): int { s.dirty - |s.expired| - |s.evicted| }

  /** Beside what it reclaims or evicts, a command moves the count by one or not at all. */
  lemma {:induction false} CountedExactly(s: State, now: int, k: string, act: Act)
    requires s.Valid() && (s.Has(k) ==> Conservation.Nonempty(s.values.at[k]))
    ensures Own(Next(s, now, k, act))
         == Own(s) + if Counts(act, Held(s, now, k), Until(s, now, k)) then 1 else 0
  {
    hide State.Valid, Gate, Meaning, Commit, Own, Conservation.Nonempty;
    var g := Gate(s, now, k);
    GateValid(s, now, k);
    GateLive(s, now, k);
    GateCounted(s, now, k);
    if !g.Has(k) { Missing(g, k); }
    HeldWell(g, k);
    if act.Get? {
      NothingGated(g, now, k);
      LooksCounted(g, now, k);
    } else {
      var e := EffectOf(g, now, k, act);
      EffectSane(g, now, k, act);
      CommitCounted(g, now, k, e);
      EffectCounted(act, now, Held(s, now, k), Until(s, now, k));
    }
  }

  lemma {:induction false} NothingGated(s: State, now: int, k: string)
    requires !s.ttl.IsExpired(k, now)
    ensures Gate(s, now, k) == s
  {
  }

  lemma {:induction false} GateCounted(s: State, now: int, k: string)
    ensures Own(Gate(s, now, k)) == Own(s)
  {
  }

  lemma {:induction false} ReserveCounted(s: State, now: int, k: string)
    requires s.Valid()
    ensures Own(Reserve(s, now, k)) == Own(s)
  {
    if Full(s, k) && s.recency != [] {
      assert s.recency[|s.recency| - 1] in s.recency;
    }
  }

  lemma {:induction false} LooksCounted(s: State, now: int, k: string)
    ensures Commit(s, now, k, EffectOf(s, now, k, TypeOf)) == s
    ensures Own(Commit(s, now, k, EffectOf(s, now, k, Act.Get))) == Own(s)
  {
    hide LRU.Touched;
  }

  lemma {:induction false} CommitCounted(s: State, now: int, k: string, e: Effect)
    requires s.Valid() && Sane(e, s.Has(k))
    ensures Own(Commit(s, now, k, e)) == Own(s) + if e.change.Drop? then 1 else e.dirty
  {
    hide State.Valid, Reserve;
    ReserveCounted(s, now, k);
  }

  lemma {:induction false} EffectCounted(act: Act, now: int, v: Option<Value>, d: Option<int>)
    requires v.Some? ==> WellFormed(v.value) && Conservation.Nonempty(v.value)
    ensures var e := Meaning(act, now, v, d);
            (if e.change.Drop? then 1 else e.dirty) == if !act.Get? && Counts(act, v, d) then 1 else 0
  {
    hide PutAll, RemoveAll, StoreSpec.Flat, Reverse, OMap.Valid;
    if act.HDel? && v.Some? && v.value.Hash? {
      RemovedCount(v.value.fields, act.removed);
    }
  }

  // ----- Sweeping -----

  /** A sweep answers how many keys it has reclaimed, each of which was due and is reported and counted;
      every other key stays as it is. */
  lemma {:induction false} SweepAnswers(s: State, now: int, limit: int) returns (gone: seq<string>)
    requires s.Valid()
    ensures var (u, o) := Step(s, now, Sweep(limit));
            && o == Num(|gone|) && u.expired == s.expired + gone
            && |u.values.keys| == |s.values.keys| - |gone| && u.dirty == s.dirty + |gone|
            && (forall k :: k in gone ==> s.Has(k) && !s.Live(k, now) && !u.Has(k))
            && (forall k :: k !in gone ==> u.Lookup(k) == s.Lookup(k) && u.Deadline(k) == s.Deadline(k))
  {
    hide State.Valid, Expiry.Collect, Reclaim, Expiry.Table.Valid;
    var (due, t) := Expiry.Collect(s.ttl, now, limit);
    gone := due;
    Sampled(s, now, limit);
    ReclaimExactly(s.(ttl := t), due);
    assert forall k :: s.(ttl := t).Lookup(k) == s.Lookup(k) && s.(ttl := t).Deadline(k) == s.Deadline(k);
  }

  lemma {:induction false} Sampled(s: State, now: int, limit: int)
    requires s.Valid()
    ensures var (due, t) := Expiry.Collect(s.ttl, now, limit);
            && s.(ttl := t).Valid() && t.deadlines == s.ttl.deadlines
            && NoDup(due) && forall k :: k in due ==> s.Has(k) && !s.Live(k, now)
  {
    hide Expiry.Collect, NoDup;
    Expiry.CollectSound(s.ttl, now, limit);
  }

  lemma {:induction false} ReclaimExactly(s: State, ks: seq<string>)
    requires s.Valid() && NoDup(ks) && forall k :: k in ks ==> s.Has(k)
    ensures var u := Reclaim(s, ks);
            && u.expired == s.expired + ks
            && |u.values.keys| == |s.values.keys| - |ks| && u.dirty == s.dirty + |ks|
            && (forall k :: k in ks ==> !u.Has(k))
            && (forall k :: k !in ks ==> u.Lookup(k) == s.Lookup(k) && u.Deadline(k) == s.Deadline(k))
    decreases ks
  {
    hide State.Valid, RemoveKey;
    if ks == [] {
      NothingAppended(s.expired);
    } else {
      var k := ks[0];
      RemoveKeyValid(s, k);
      ReclaimOneValid(s, k);
      KeyRemoved(s, k);
      NoDupTail(ks);
      forall j | j in ks[1..] ensures j != k && ReclaimOne(s, k).Has(j) {
        assert j in ks;
        assert ReclaimOne(s, k).Lookup(j) == s.Lookup(j);
      }
      ReclaimExactly(ReclaimOne(s, k), ks[1..]);
      Associative(s.expired, [k], ks[1..]);
      assert ks == [k] + ks[1..];
    }
  }

  lemma {:induction false} KeyRemoved(s: State, k: string)
    requires s.Valid() && s.Has(k)
    ensures var r := ReclaimOne(s, k);
            && r.expired == s.expired + [k] && r.dirty == s.dirty + 1 && !r.Has(k)
            && forall j :: j != k ==> r.Lookup(j) == s.Lookup(j) && r.Deadline(j) == s.Deadline(j)
  {
    hide State.Valid;
    RemoveKeyValid(s, k);
  }

  // ----- Listing keys -----

  /** KEYS answers the live keys that match, each once, in the order of their insertion. */
  lemma {:induction false} KeysAnswers(s: State, now: int, pattern: string) returns (items: seq<string>)
    requires s.Valid()
    ensures Execute(s, now, ListKeys(pattern)).reply == Replies.ArrayText(items)
    ensures forall k :: k in items <==> s.Live(k, now) && Glob(pattern, k)
    ensures items == Keep(s.values.keys, set k | k in items)
  {
    hide State.Valid, Keep, Purge, Glob, Matching;
    var p := Purge(s, now, s.values.keys);
    PurgeRestricts(s, now, s.values.keys);
    Listed(s);
    Listed(p);
    items := Matching(pattern, p.values.keys);
    ItemsSpelled(items);
    MatchingKept(pattern, p.values.keys);
    var kept := set k | k in items;
    KeepKeep(s.values.keys, p.values.at.Keys, kept);
    assert p.values.at.Keys * kept == kept;
    forall k ensures k in items <==> s.Live(k, now) && Glob(pattern, k) {
      PurgeLive(s, now, k);
    }
  }

  lemma {:induction false} MatchingKept(pattern: string, keys: seq<string>)
    ensures Matching(pattern, keys) == Keep(keys, set k | k in Matching(pattern, keys))
  {
    hide Glob;
    MatchingSome(pattern, keys, set k | k in Matching(pattern, keys));
  }

  lemma {:induction false} MatchingSome(pattern: string, keys: seq<string>, kept: set<string>)
    requires forall k :: k in keys ==> (k in kept <==> Glob(pattern, k))
    ensures Matching(pattern, keys) == Keep(keys, kept)
  {
    hide Glob;
    if keys != [] {
      MatchingSome(pattern, keys[1..], kept);
    }
  }

  lemma {:induction false} PurgeLive(s: State, now: int, k: string)
    requires s.Valid()
    ensures Purge(s, now, s.values.keys).Has(k) <==> s.Live(k, now)
  {
    hide State.Valid, Keep, Purge;
    PurgeRestricts(s, now, s.values.keys);
    Listed(s);
  }
}
