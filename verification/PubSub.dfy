/** Publish/subscribe: the two indexes, from channels to connections and from connections to
    channels, and the relation that they both stand for. */
module PubSub {
  import opened Sequences
  import Replies

  /** A `Map` of `Set`s: every set lists its members in the order they were added. */
  type Index = map<string, seq<string>>

  function Members(ix: Index, k: string): seq<string> {
    if k in ix then ix[k] else []
  }

  function Add(s: seq<string>, x: string): seq<string> {
    if x in s then s else s + [x]
  }

  function Join(ix: Index, k: string, x: string): Index {
    ix[k := Add(Members(ix, k), x)]
  }

  /** Take a member out; an emptied set goes. */
  function Leave(ix: Index, k: string, x: string): Index {
    if k !in ix then ix
    else
      var rest := Without(ix[k], x);
      if rest == [] then ix - {k} else ix[k := rest]
  }

  datatype Registry = Registry(channels: Index, connections: Index)
  {
    /** Both indexes hold the same pairs, no set lists a member twice, no channel is left empty. */
    ghost predicate Valid() {
      && (forall ch :: ch in channels ==> NoDup(channels[ch]) && channels[ch] != [])
      && (forall c :: c in connections ==> NoDup(connections[c]))
      && (forall c, ch :: Lists(c, ch) <==> Holds(c, ch))
    }

    /** No connection is listed without a channel either. */
    ghost predicate Tidy() {
      Valid() && forall c :: c in connections ==> connections[c] != []
    }

    /** The pair as the connection's set has it, and as the channel's set has it. */
    predicate Holds(c: string, ch: string) {
      ch in Members(connections, c)
    }

    predicate Lists(c: string, ch: string) {
      c in Members(channels, ch)
    }
  }

  const NOBODY := Registry(map[], map[])

  // ----- The operations -----

  function SubscribeOne(r: Registry, c: string, ch: string): Registry {
    Registry(Join(r.channels, ch, c), Join(r.connections, c, ch))
  }

  function Register(r: Registry, c: string): Registry {
    if c in r.connections then r else r.(connections := r.connections[c := []])
  }

  function SubscribeAll(r: Registry, c: string, chs: seq<string>): Registry {
    if chs == [] then r
    else SubscribeOne(SubscribeAll(r, c, chs[..|chs| - 1]), c, chs[|chs| - 1])
  }

  function Subscribe(r: Registry, c: string, chs: seq<string>): Registry {
    SubscribeAll(Register(r, c), c, chs)
  }

  /** Taking a channel from a connection: its own set stays, even when emptied. */
  function UnsubscribeOne(r: Registry, c: string, ch: string): Registry {
    Registry(Leave(r.channels, ch, c), r.connections[c := Without(Members(r.connections, c), ch)])
  }

  function UnsubscribeAll(r: Registry, c: string, chs: seq<string>): Registry {
    if chs == [] then r
    else UnsubscribeOne(UnsubscribeAll(r, c, chs[..|chs| - 1]), c, chs[|chs| - 1])
  }

  /** Forget a connection whose set has become empty. */
  function Forget(r: Registry, c: string): Registry {
    if c in r.connections && r.connections[c] == [] then r.(connections := r.connections - {c}) else r
  }

  /** Without channels, all of the connection's. */
  function Unsubscribe(r: Registry, c: string, chs: seq<string>): Registry {
    if c !in r.connections then r
    else Forget(UnsubscribeAll(r, c, if chs == [] then r.connections[c] else chs), c)
  }

  function LeaveAll(channels: Index, c: string, chs: seq<string>): Index {
    if chs == [] then channels
    else Leave(LeaveAll(channels, c, chs[..|chs| - 1]), chs[|chs| - 1], c)
  }

  function Disconnect(r: Registry, c: string): Registry {
    if c !in r.connections then r
    else Registry(LeaveAll(r.channels, c, r.connections[c]), r.connections - {c})
  }

  // ----- One pair at a time -----

  lemma {:induction false} JoinMembers(ix: Index, k: string, x: string)
    requires forall j :: j in ix ==> NoDup(ix[j])
    ensures forall j, y :: y in Members(Join(ix, k, x), j) <==> y in Members(ix, j) || (j == k && y == x)
    ensures forall j :: j in Join(ix, k, x) ==> NoDup(Join(ix, k, x)[j])
    ensures Join(ix, k, x).Keys == ix.Keys + {k} && Join(ix, k, x)[k] != []
    ensures forall j :: j in ix && j != k ==> Join(ix, k, x)[j] == ix[j]
  {
  }

  lemma {:induction false} LeaveMembers(ix: Index, k: string, x: string)
    requires forall j :: j in ix ==> NoDup(ix[j])
    ensures forall j, y :: y in Members(Leave(ix, k, x), j) <==> y in Members(ix, j) && !(j == k && y == x)
    ensures forall j :: j in Leave(ix, k, x) ==> NoDup(Leave(ix, k, x)[j])
    ensures (forall j :: j in ix ==> ix[j] != []) ==> forall j :: j in Leave(ix, k, x) ==> Leave(ix, k, x)[j] != []
  {
    if k in ix {
      WithoutNoDup(ix[k], x);
      EmptyHasNone(Without(ix[k], x));
    }
  }

  lemma {:induction false} EmptyHasNone(s: seq<string>)
    ensures s == [] <==> forall x :: x !in s
  {
    if s != [] {
      assert s[0] in s;
    }
  }

  lemma {:induction false} SubscribeOnePairs(r: Registry, c: string, ch: string)
    requires r.Valid()
    ensures var u := SubscribeOne(r, c, ch);
            && u.Valid()
            && (forall d, x :: u.Holds(d, x) <==> r.Holds(d, x) || (d == c && x == ch))
            && u.connections.Keys == r.connections.Keys + {c} && u.connections[c] != []
            && (forall d :: d in r.connections && d != c ==> u.connections[d] == r.connections[d])
  {
    JoinMembers(r.channels, ch, c);
    JoinMembers(r.connections, c, ch);
    hide NoDup, Members, Join;
    var u := SubscribeOne(r, c, ch);
    forall d, x ensures u.Holds(d, x) <==> r.Holds(d, x) || (d == c && x == ch)
                ensures u.Lists(d, x) <==> r.Lists(d, x) || (d == c && x == ch) {
    }
    forall x | x in u.channels ensures u.channels[x] != [] {
      if x != ch { assert u.channels[x] == r.channels[x]; }
    }
  }

  lemma {:induction false} UnsubscribeOnePairs(r: Registry, c: string, ch: string)
    requires r.Valid() && c in r.connections
    ensures var u := UnsubscribeOne(r, c, ch);
            && u.Valid()
            && (forall d, x :: u.Holds(d, x) <==> r.Holds(d, x) && !(d == c && x == ch))
            && u.connections.Keys == r.connections.Keys
            && (forall d :: d in r.connections && d != c ==> u.connections[d] == r.connections[d])
  {
    LeaveMembers(r.channels, ch, c);
    WithoutNoDup(r.connections[c], ch);
    hide NoDup, Leave;
    var u := UnsubscribeOne(r, c, ch);
    forall d, x ensures u.Holds(d, x) <==> r.Holds(d, x) && !(d == c && x == ch)
                ensures u.Lists(d, x) <==> r.Lists(d, x) && !(d == c && x == ch) {
    }
  }

  // ----- Whole operations -----

  lemma {:induction false} SubscribeAllPairs(r: Registry, c: string, chs: seq<string>)
    requires r.Valid()
    ensures var u := SubscribeAll(r, c, chs);
            && u.Valid()
            && (forall d, x :: u.Holds(d, x) <==> r.Holds(d, x) || (d == c && x in chs))
            && (chs != [] ==> u.connections.Keys == r.connections.Keys + {c} && u.connections[c] != [])
            && (forall d :: d in r.connections && d != c ==> d in u.connections && u.connections[d] == r.connections[d])
            && (chs == [] ==> u == r)
  {
    hide Registry.Valid, Registry.Holds, SubscribeOne;
    if chs != [] {
      var n := |chs| - 1;
      SubscribeAllPairs(r, c, chs[..n]);
      SubscribeOnePairs(SubscribeAll(r, c, chs[..n]), c, chs[n]);
      assert chs == chs[..n] + [chs[n]];
    }
  }

  lemma {:induction false} RegisterPairs(r: Registry, c: string)
    requires r.Valid()
    ensures Register(r, c).Valid()
    ensures forall d, x :: Register(r, c).Holds(d, x) <==> r.Holds(d, x)
  {
    var u := Register(r, c);
    forall d, x ensures u.Holds(d, x) <==> r.Holds(d, x) ensures u.Lists(d, x) <==> r.Lists(d, x) {
    }
  }

  /** Subscribing adds exactly the pairs asked for; the registry stays tidy if and only if a channel
      is named or the connection was known already. */
  lemma {:induction false} SubscribePairs(r: Registry, c: string, chs: seq<string>)
    requires r.Tidy()
    ensures var u := Subscribe(r, c, chs);
            && u.Valid()
            && (forall d, x :: u.Holds(d, x) <==> r.Holds(d, x) || (d == c && x in chs))
            && (u.Tidy() <==> chs != [] || c in r.connections)
  {
    hide NoDup, Members, SubscribeAll, Registry.Valid, Registry.Holds;
    RegisterPairs(r, c);
    SubscribeAllPairs(Register(r, c), c, chs);
    var u := Subscribe(r, c, chs);
    if chs != [] || c in r.connections {
      forall d | d in u.connections ensures u.connections[d] != [] {
        assert d != c ==> u.connections[d] == r.connections[d];
      }
    } else {
      assert c in u.connections && u.connections[c] == [];
    }
  }

  lemma {:induction false} UnsubscribeAllPairs(r: Registry, c: string, chs: seq<string>)
    requires r.Valid() && c in r.connections
    ensures var u := UnsubscribeAll(r, c, chs);
            && u.Valid()
            && (forall d, x :: u.Holds(d, x) <==> r.Holds(d, x) && !(d == c && x in chs))
            && u.connections.Keys == r.connections.Keys
            && (forall d :: d in r.connections && d != c ==> u.connections[d] == r.connections[d])
  {
    hide Registry.Valid, Registry.Holds, UnsubscribeOne;
    if chs != [] {
      var n := |chs| - 1;
      UnsubscribeAllPairs(r, c, chs[..n]);
      UnsubscribeOnePairs(UnsubscribeAll(r, c, chs[..n]), c, chs[n]);
      assert chs == chs[..n] + [chs[n]];
    }
  }

  lemma {:induction false} ForgetPairs(r: Registry, c: string)
    requires r.Valid()
    ensures Forget(r, c).Valid()
    ensures forall d, x :: Forget(r, c).Holds(d, x) <==> r.Holds(d, x)
    ensures (forall d :: d in r.connections && d != c ==> r.connections[d] != []) ==> Forget(r, c).Tidy()
  {
    var u := Forget(r, c);
    forall d, x ensures u.Holds(d, x) <==> r.Holds(d, x) ensures u.Lists(d, x) <==> r.Lists(d, x) {
    }
  }

  /** Unsubscribing takes exactly the named channels away from the connection, or all of them when
      none is named; a channel named twice or never subscribed changes nothing more. */
  lemma {:induction false} UnsubscribePairs(r: Registry, c: string, chs: seq<string>)
    requires r.Tidy()
    ensures var u := Unsubscribe(r, c, chs);
            && u.Tidy()
            && (forall d, x :: u.Holds(d, x) <==> r.Holds(d, x) && !(d == c && (chs == [] || x in chs)))
  {
    hide NoDup, UnsubscribeAll, Forget;
    if c in r.connections {
      var gone := if chs == [] then r.connections[c] else chs;
      UnsubscribeAllPairs(r, c, gone);
      ForgetPairs(UnsubscribeAll(r, c, gone), c);
    }
  }

  /** The channel index is treated alike by unsubscribing and by disconnecting. */
  lemma {:induction false} LeaveAllChannels(r: Registry, c: string, chs: seq<string>)
    ensures UnsubscribeAll(r, c, chs).channels == LeaveAll(r.channels, c, chs)
    ensures UnsubscribeAll(r, c, chs).connections - {c} == r.connections - {c}
  {
    hide Leave;
    if chs != [] {
      LeaveAllChannels(r, c, chs[..|chs| - 1]);
    }
  }

  /** Losing a connection is unsubscribing it from everything. */
  lemma {:induction false} DisconnectIsUnsubscribe(r: Registry, c: string)
    requires r.Tidy()
    ensures Disconnect(r, c) == Unsubscribe(r, c, [])
  {
    if c in r.connections {
      hide NoDup, UnsubscribeAll, LeaveAll;
      var gone := r.connections[c];
      LeaveAllChannels(r, c, gone);
      UnsubscribeAllPairs(r, c, gone);
      var u := UnsubscribeAll(r, c, gone);
      EmptyHasNone(u.connections[c]);
      forall x ensures x !in u.connections[c] {
        assert u.Holds(c, x) <==> r.Holds(c, x) && !(x in gone);
      }
      assert u.connections[c] == [];
    }
  }

  // ----- Confirmations -----

  /** One confirmation per channel, with the size of the connection's set after it. */
  function SubscribeReplies(r: Registry, c: string, chs: seq<string>): seq<string> {
    if chs == [] then []
    else
      var n := |chs| - 1;
      SubscribeReplies(r, c, chs[..n])
      + [Replies.Subscribed(chs[n], |Members(SubscribeAll(r, c, chs).connections, c)|)]
  }

  function UnsubscribeReplies(r: Registry, c: string, chs: seq<string>): seq<string> {
    if chs == [] then []
    else
      var n := |chs| - 1;
      UnsubscribeReplies(r, c, chs[..n])
      + [Replies.Unsubscribed(chs[n], |Members(UnsubscribeAll(r, c, chs).connections, c)|)]
  }

  /** What subscribing answers. */
  function SubscribeAnswer(r: Registry, c: string, chs: seq<string>): seq<string> {
    SubscribeReplies(Register(r, c), c, chs)
  }

  /** What unsubscribing answers; an unknown connection gets a confirmation for every named channel. */
  function UnsubscribeAnswer(r: Registry, c: string, chs: seq<string>): seq<string> {
    if c in r.connections then UnsubscribeReplies(r, c, if chs == [] then r.connections[c] else chs)
    else seq(|chs|, i requires 0 <= i < |chs| => Replies.Unsubscribed(chs[i], 0))
  }

  predicate IsSubscribed(r: Registry, c: string) {
    c in r.connections && r.connections[c] != []
  }

  /** Subscribed is who holds a channel. */
  lemma {:induction false} SubscribedHolds(r: Registry, c: string)
    ensures IsSubscribed(r, c) <==> exists ch :: r.Holds(c, ch)
  {
    if c in r.connections {
      EmptyHasNone(r.connections[c]);
      if r.connections[c] != [] { assert r.Holds(c, r.connections[c][0]); }
    }
  }

  /** The i-th confirmation names the i-th channel and counts the channels held by then, each once. */
  lemma {:induction false} SubscribeReplyAt(r: Registry, c: string, chs: seq<string>, i: nat, held: set<string>)
    requires r.Valid() && i < |chs|
    requires forall ch :: ch in held <==> r.Holds(c, ch) || ch in chs[..i + 1]
    ensures |SubscribeReplies(r, c, chs)| == |chs|
    ensures SubscribeReplies(r, c, chs)[i] == Replies.Subscribed(chs[i], |held|)
  {
    hide SubscribeAll, Registry.Valid, Registry.Holds, Members;
    var n := |chs| - 1;
    if i == n {
      assert chs[..i + 1] == chs;
      SubscribeLength(r, c, chs[..n]);
      SubscribeAllPairs(r, c, chs);
      HeldSize(SubscribeAll(r, c, chs), c, held);
    } else {
      assert chs[..n][..i + 1] == chs[..i + 1];
      SubscribeReplyAt(r, c, chs[..n], i, held);
    }
  }

  lemma {:induction false} SubscribeLength(r: Registry, c: string, chs: seq<string>)
    ensures |SubscribeReplies(r, c, chs)| == |chs|
  {
    if chs != [] {
      SubscribeLength(r, c, chs[..|chs| - 1]);
    }
  }

  lemma {:induction false} HeldSize(r: Registry, c: string, held: set<string>)
    requires r.Valid() && forall ch :: ch in held <==> r.Holds(c, ch)
    ensures |Members(r.connections, c)| == |held|
  {
    NoDupSize(Members(r.connections, c), held);
  }

  /** Likewise for unsubscribing: the channels still held after the i-th one. */
  lemma {:induction false} UnsubscribeReplyAt(r: Registry, c: string, chs: seq<string>, i: nat, held: set<string>)
    requires r.Valid() && i < |chs| && c in r.connections
    requires forall ch :: ch in held <==> r.Holds(c, ch) && ch !in chs[..i + 1]
    ensures |UnsubscribeReplies(r, c, chs)| == |chs|
    ensures UnsubscribeReplies(r, c, chs)[i] == Replies.Unsubscribed(chs[i], |held|)
  {
    hide UnsubscribeAll, Registry.Valid, Registry.Holds, Members;
    var n := |chs| - 1;
    if i == n {
      assert chs[..i + 1] == chs;
      UnsubscribeLength(r, c, chs[..n]);
      UnsubscribeAllPairs(r, c, chs);
      HeldSize(UnsubscribeAll(r, c, chs), c, held);
    } else {
      assert chs[..n][..i + 1] == chs[..i + 1];
      UnsubscribeReplyAt(r, c, chs[..n], i, held);
    }
  }

  lemma {:induction false} UnsubscribeLength(r: Registry, c: string, chs: seq<string>)
    ensures |UnsubscribeReplies(r, c, chs)| == |chs|
  {
    if chs != [] {
      UnsubscribeLength(r, c, chs[..|chs| - 1]);
    }
  }

  /** What SUBSCRIBE and UNSUBSCRIBE answer, channel by channel, whether the connection is known or not: the
      channels it holds by then. Without channels UNSUBSCRIBE names those it holds, in the order in which it
      came to hold them. */
  lemma {:induction false} AnswersAt(r: Registry, c: string, chs: seq<string>, i: nat, more: set<string>,
                                     fewer: set<string>)
    requires r.Valid() && i < |chs|
    requires forall ch :: ch in more <==> r.Holds(c, ch) || ch in chs[..i + 1]
    requires forall ch :: ch in fewer <==> r.Holds(c, ch) && ch !in chs[..i + 1]
    ensures |SubscribeAnswer(r, c, chs)| == |chs|
    ensures SubscribeAnswer(r, c, chs)[i] == Replies.Subscribed(chs[i], |more|)
    ensures |UnsubscribeAnswer(r, c, chs)| == |chs|
    ensures UnsubscribeAnswer(r, c, chs)[i] == Replies.Unsubscribed(chs[i], |fewer|)
    ensures UnsubscribeAnswer(r, c, []) == UnsubscribeAnswer(r, c, Members(r.connections, c))
  {
    RegisterPairs(r, c);
    hide SubscribeReplies, UnsubscribeReplies, Registry.Valid, Registry.Holds, Register;
    SubscribeReplyAt(Register(r, c), c, chs, i, more);
    if c in r.connections {
      UnsubscribeReplyAt(r, c, chs, i, fewer);
    } else {
      UnknownHolds(r, c);
      assert fewer == {};
    }
    NothingToLeave(r, c);
  }

  lemma {:induction false} UnknownHolds(r: Registry, c: string)
    requires c !in r.connections
    ensures forall ch :: !r.Holds(c, ch)
  {
  }

  lemma {:induction false} NothingToLeave(r: Registry, c: string)
    ensures UnsubscribeAnswer(r, c, []) == UnsubscribeAnswer(r, c, Members(r.connections, c))
  {
    if c in r.connections && r.connections[c] == [] {
      assert UnsubscribeReplies(r, c, []) == [];
    }
  }

  // ----- Publishing -----

  /** A write of a message to each member of the channel's set, in its order. */
  function Deliveries(r: Registry, ch: string, message: string): (w: seq<(string, string)>)
    ensures |w| == |Members(r.channels, ch)|
    ensures forall i :: 0 <= i < |w| ==> w[i] == (Members(r.channels, ch)[i], Replies.PushMessage(ch, message))
  {
    var subscribers := Members(r.channels, ch);
    seq(|subscribers|, i requires 0 <= i < |subscribers| => (subscribers[i], Replies.PushMessage(ch, message)))
  }

  /** Every subscriber is written to once and nobody else is; the count is the number of
      subscribers, the connections for which `isSubscribed` to this channel holds. */
  lemma {:induction false} DeliveredOnce(r: Registry, ch: string, message: string, subscribers: set<string>)
    requires r.Valid() && forall c :: c in subscribers <==> r.Holds(c, ch)
    ensures var w := Deliveries(r, ch, message);
            && |w| == |subscribers|
            && (forall c :: c in subscribers <==> exists i :: 0 <= i < |w| && w[i].0 == c)
            && (forall i, j :: 0 <= i < j < |w| ==> w[i].0 != w[j].0)
  {
    var members := Members(r.channels, ch);
    var w := Deliveries(r, ch, message);
    forall c ensures c in subscribers <==> exists i :: 0 <= i < |w| && w[i].0 == c {
      assert r.Holds(c, ch) <==> r.Lists(c, ch);
      if c in members {
        var i :| 0 <= i < |members| && members[i] == c;
        assert w[i].0 == c;
      }
    }
    NoDupSize(members, subscribers);
  }

  // ----- Whole runs -----

  datatype Event =
    | Subscribes(conn: string, channels: seq<string>)
    | Unsubscribes(conn: string, channels: seq<string>)
    | Leaves(conn: string)

  function StepRegistry(r: Registry, e: Event): Registry {
    match e
    case Subscribes(c, chs) => Subscribe(r, c, chs)
    case Unsubscribes(c, chs) => Unsubscribe(r, c, chs)
    case Leaves(c) => Disconnect(r, c)
  }

  function RunRegistry(r: Registry, events: seq<Event>): Registry {
    if events == [] then r else StepRegistry(RunRegistry(r, events[..|events| - 1]), events[|events| - 1])
  }

  /** The last word on a pair: what the most recent event that concerns it says. */
  predicate Wants(events: seq<Event>, c: string, ch: string) {
    events != [] &&
    var last := events[|events| - 1];
    if last.conn == c && last.Subscribes? && ch in last.channels then true
    else if last.conn == c && last.Unsubscribes? && (last.channels == [] || ch in last.channels) then false
    else if last.conn == c && last.Leaves? then false
    else Wants(events[..|events| - 1], c, ch)
  }

  /** The last word on some channel is a subscription. */
  ghost predicate WantsSome(events: seq<Event>, c: string) {
    exists ch :: Wants(events, c, ch)
  }

  lemma {:induction false} NobodyHolds()
    ensures NOBODY.Tidy() && forall c, ch :: !NOBODY.Holds(c, ch) && !NOBODY.Lists(c, ch)
  {
  }

  /** Two-way at every point of every run: after any subscribing, unsubscribing and disconnecting,
      both indexes hold exactly the pairs whose last word is a subscription, and no empty set. */
  lemma {:induction false} RunTwoWay(events: seq<Event>)
    requires forall i :: 0 <= i < |events| && events[i].Subscribes? ==> events[i].channels != []
    ensures var r := RunRegistry(NOBODY, events);
            && r.Tidy()
            && (forall c, ch :: Wants(events, c, ch) <==> r.Holds(c, ch))
            && (forall c, ch :: Wants(events, c, ch) <==> r.Lists(c, ch))
  {
    hide NoDup, Subscribe, Unsubscribe, Disconnect, Members;
    if events == [] {
      NobodyHolds();
    } else {
      var n := |events| - 1;
      RunTwoWay(events[..n]);
      var r := RunRegistry(NOBODY, events[..n]);
      match events[n]
      case Subscribes(c, chs) => SubscribePairs(r, c, chs);
      case Unsubscribes(c, chs) => UnsubscribePairs(r, c, chs);
      case Leaves(c) =>
        DisconnectIsUnsubscribe(r, c);
        UnsubscribePairs(r, c, []);
    }
  }
}
