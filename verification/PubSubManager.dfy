/** The publish/subscribe manager as an object: its loops over the two indexes, proved to be the
    operations of `PubSub`. */
module Broker {
  import opened Sequences
  import opened PubSub
  import Replies

  lemma {:induction false} SubscribedOne(r: Registry, u: Registry, c: string, ch: string)
    requires c in r.connections && u.connections == r.connections[c := Add(r.connections[c], ch)]
    requires u.channels == r.channels[ch := Add(Members(r.channels, ch), c)]
    ensures u == SubscribeOne(r, c, ch) && Members(u.connections, c) == u.connections[c]
  {
  }

  /** Creating the set first and adding to it then is adding to what may not be there yet. */
  lemma {:induction false} JoinTwoSteps(ix: Index, k: string, x: string)
    ensures ix[k := Add(Members(ix, k), x)] ==
            if k in ix then ix[k := Add(ix[k], x)] else ix[k := []][k := Add([], x)]
  {
  }

  lemma {:induction false} UnsubscribedOne(r: Registry, u: Registry, c: string, ch: string)
    requires c in r.connections && u.connections == r.connections[c := Without(r.connections[c], ch)]
    requires u.channels == Leave(r.channels, ch, c)
    ensures u == UnsubscribeOne(r, c, ch) && Members(u.connections, c) == u.connections[c]
  {
  }

  class PubSubManager {
    /** Channel to its subscribed connections, connection to its channels. */
    var channels: Index
    var connections: Index
    /** The writes made to connections, in order. */
    var written: seq<(string, string)>

    ghost function View(): Registry
      reads this
    {
      Registry(channels, connections)
    }

    constructor ()
      ensures View() == NOBODY && written == []
    {
      channels, connections, written := map[], map[], [];
    }

    method Subscribe(connection: string, chs: seq<string>) returns (replies: seq<string>)
      modifies `channels, `connections
      ensures View() == PubSub.Subscribe(old(View()), connection, chs)
      ensures replies == SubscribeAnswer(old(View()), connection, chs)
    {
      hide SubscribeOne, Members;
      replies := [];
      if connection !in connections {
        connections := connections[connection := []];
      }
      ghost var r := View();
      var i := 0;
      assert chs[..0] == [];
      while i < |chs|
        invariant 0 <= i <= |chs| == |chs|
        invariant connection in connections
        invariant View() == SubscribeAll(r, connection, chs[..i])
        invariant replies == SubscribeReplies(r, connection, chs[..i])
      {
        var channel := chs[i];
        assert chs[..i + 1][..i] == chs[..i];
        ghost var before := View();
        JoinTwoSteps(channels, channel, connection);
        if channel !in channels {
          channels := channels[channel := []];
        }
        channels := channels[channel := Add(channels[channel], connection)];
        connections := connections[connection := Add(connections[connection], channel)];
        SubscribedOne(before, View(), connection, channel);
        replies := replies + [Replies.Subscribed(channel, |connections[connection]|)];
        i := i + 1;
      }
      assert chs[..i] == chs;
    }

    method Unsubscribe(connection: string, chs: seq<string>) returns (replies: seq<string>)
      modifies `channels, `connections
      ensures View() == PubSub.Unsubscribe(old(View()), connection, chs)
      ensures replies == UnsubscribeAnswer(old(View()), connection, chs)
    {
      hide UnsubscribeOne, Members;
      replies := [];
      if connection !in connections {
        if |chs| > 0 {
          replies := seq(|chs|, i requires 0 <= i < |chs| => Replies.Unsubscribed(chs[i], 0));
        }
        return;
      }
      ghost var r := View();
      var toRemove := if |chs| > 0 then chs else connections[connection];
      var i := 0;
      assert toRemove[..0] == [];
      while i < |toRemove|
        invariant 0 <= i <= |toRemove|
        invariant connection in connections
        invariant View() == UnsubscribeAll(r, connection, toRemove[..i])
        invariant replies == UnsubscribeReplies(r, connection, toRemove[..i])
      {
        var channel := toRemove[i];
        assert toRemove[..i + 1][..i] == toRemove[..i];
        ghost var before := View();
        connections := connections[connection := Without(connections[connection], channel)];
        RemoveMember(channel, connection);
        UnsubscribedOne(before, View(), connection, channel);
        replies := replies + [Replies.Unsubscribed(channel, |connections[connection]|)];
        i := i + 1;
      }
      assert toRemove[..i] == toRemove;
      if |connections[connection]| == 0 {
        connections := connections - {connection};
      }
    }

    /** Take a connection out of a channel's set, and drop the set if that empties it. */
    method RemoveMember(channel: string, connection: string)
      modifies `channels
      ensures channels == Leave(old(channels), channel, connection)
    {
      if channel in channels {
        var rest := Without(channels[channel], connection);
        channels := channels[channel := rest];
        if |rest| == 0 {
          channels := channels - {channel};
        }
      }
    }

    method Publish(channel: string, message: string) returns (count: nat)
      modifies `written
      ensures written == old(written) + Deliveries(View(), channel, message)
      ensures count == |Deliveries(View(), channel, message)|
      ensures View() == old(View())
    {
      if channel !in channels || |channels[channel]| == 0 {
        return 0;
      }
      var subscribers := channels[channel];
      var formatted := Replies.PushMessage(channel, message);
      var i := 0;
      while i < |subscribers|
        invariant 0 <= i <= |subscribers|
        invariant written == old(written) + Deliveries(View(), channel, message)[..i]
      {
        written := written + [(subscribers[i], formatted)];
        i := i + 1;
      }
      return |subscribers|;
    }

    method RemoveConnection(connection: string)
      modifies `channels, `connections
      ensures View() == Disconnect(old(View()), connection)
    {
      if connection !in connections {
        return;
      }
      var connChannels := connections[connection];
      var i := 0;
      assert connChannels[..0] == [];
      while i < |connChannels|
        invariant 0 <= i <= |connChannels|
        invariant connections == old(connections)
        invariant channels == LeaveAll(old(channels), connection, connChannels[..i])
      {
        assert connChannels[..i + 1][..i] == connChannels[..i];
        RemoveMember(connChannels[i], connection);
        i := i + 1;
      }
      assert connChannels[..i] == connChannels;
      connections := connections - {connection};
    }

    method IsSubscribed(connection: string) returns (subscribed: bool)
      ensures subscribed <==> PubSub.IsSubscribed(View(), connection)
      ensures subscribed <==> exists ch :: View().Holds(connection, ch)
    {
      SubscribedHolds(View(), connection);
      subscribed := connection in connections && |connections[connection]| > 0;
    }
  }
}
