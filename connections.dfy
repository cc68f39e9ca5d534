/** The server's registry of connections (`ConnectionsImpl`): the user table,
    the connection handlers, and two maps that mirror each other, channel ->
    (connection -> subscription id) and connection -> (destination ->
    subscription id). The maps are plain sequential maps; a handler is an
    opaque value of type `H` and a message one of type `T`. */
module Connections {
  import opened Wrappers

  /** A connection id, a Java `int`. */
  newtype ConnectionId = x: int | -0x8000_0000 <= x < 0x8000_0000

  type Channels = map<string, map<ConnectionId, string>>
  type ById = map<ConnectionId, map<string, string>>

  /** The mirror invariant: `channels[d][c] == s` exactly when `byId[c][d] == s`. */
  predicate Mirrored(channels: Channels, byId: ById) {
    && (forall d, c :: d in channels && c in channels[d] ==>
          c in byId && d in byId[c] && byId[c][d] == channels[d][c])
    && (forall c, d :: c in byId && d in byId[c] ==>
          d in channels && c in channels[d] && channels[d][c] == byId[c][d])
  }

  /** No channel is kept with an empty subscriber map. */
  predicate NoEmptyChannel(channels: Channels) {
    forall d :: d in channels ==> channels[d] != map[]
  }

  predicate Registered(channels: Channels, byId: ById) {
    Mirrored(channels, byId) && NoEmptyChannel(channels)
  }

  /** `subscribe`, channel side: `c` enters `d`'s subscriber map with id `s`. */
  function SubscribeChannel(channels: Channels, c: ConnectionId, d: string, s: string): Channels {
    channels[d := (if d in channels then channels[d] else map[])[c := s]]
  }

  /** `subscribe`, connection side: `d` enters `c`'s destination map with id `s`. */
  function SubscribeById(byId: ById, c: ConnectionId, d: string, s: string): ById {
    byId[c := (if c in byId then byId[c] else map[])[d := s]]
  }

  /** The channel side of `unsubscribe`: `c` leaves `d`, and `d` goes when
      nobody is left on it. */
  function LeaveChannel(channels: Channels, d: string, c: ConnectionId): Channels {
    if d !in channels then channels
    else if channels[d] - {c} == map[] then channels - {d}
    else channels[d := channels[d] - {c}]
  }

  /** The connection side of `unsubscribe`. */
  function UnsubscribeById(byId: ById, c: ConnectionId, d: string): ById {
    if c in byId then byId[c := byId[c] - {d}] else byId
  }

  /** The channel map after `c` left every channel of `dests`; a channel
      left without subscribers is dropped. */
  function LeaveChannels(channels: Channels, c: ConnectionId, dests: set<string>): Channels {
    map d | d in channels && (d !in dests || channels[d] - {c} != map[]) ::
      if d in dests then channels[d] - {c} else channels[d]
  }

  /** `subscribe` keeps the registry consistent, and afterwards `c`'s
      subscription to `d` is `s` on both sides. */
  lemma SubscribeKeepsRegistry(channels: Channels, byId: ById, c: ConnectionId, d: string, s: string)
    requires Registered(channels, byId)
    ensures var ch := SubscribeChannel(channels, c, d, s);
      var ids := SubscribeById(byId, c, d, s);
      && Registered(ch, ids)
      && c in ch[d] && ch[d][c] == s && d in ids[c] && ids[c][d] == s
  {
    var ch := SubscribeChannel(channels, c, d, s);
    var ids := SubscribeById(byId, c, d, s);
    forall d', c' | d' in ch && c' in ch[d']
      ensures c' in ids && d' in ids[c'] && ids[c'][d'] == ch[d'][c']
    {
      if d' != d || c' != c {
        assert d' in channels && c' in channels[d'];
      }
    }
    forall c', d' | c' in ids && d' in ids[c']
      ensures d' in ch && c' in ch[d'] && ch[d'][c'] == ids[c'][d']
    {
      if d' != d || c' != c {
        assert c' in byId && d' in byId[c'];
      }
    }
    forall d' | d' in ch
      ensures ch[d'] != map[]
    {
      if d' == d {
        assert c in ch[d];
      }
    }
  }

  /** `unsubscribe` keeps the registry consistent and removes `c`'s
      subscription to `d` on both sides. */
  lemma UnsubscribeKeepsRegistry(channels: Channels, byId: ById, c: ConnectionId, d: string)
    requires Registered(channels, byId)
    ensures var ch := LeaveChannel(channels, d, c);
      var ids := UnsubscribeById(byId, c, d);
      && Registered(ch, ids)
      && (d in ch ==> c !in ch[d])
      && (c in ids ==> d !in ids[c])
  {
    var ch := LeaveChannel(channels, d, c);
    var ids := UnsubscribeById(byId, c, d);
    forall d', c' | d' in ch && c' in ch[d']
      ensures c' in ids && d' in ids[c'] && ids[c'][d'] == ch[d'][c']
    {
      assert d' in channels && c' in channels[d'];
    }
    forall c', d' | c' in ids && d' in ids[c']
      ensures d' in ch && c' in ch[d'] && ch[d'][c'] == ids[c'][d']
    {
      assert c' in byId && d' in byId[c'] && (c' != c || d' != d);
      assert d' in channels && c' in channels[d'];
      if d' == d {
        assert c' in channels[d] - {c};
      }
    }
  }

  /** `unsubscribe` touches no other (channel, connection) pair. */
  lemma UnsubscribeOnlyThatPair(channels: Channels, c: ConnectionId, d: string)
    requires NoEmptyChannel(channels)
    ensures var ch := LeaveChannel(channels, d, c);
      && (forall d', c' :: (d', c') != (d, c) ==>
            ((d' in ch && c' in ch[d']) <==> (d' in channels && c' in channels[d'])))
      && (forall d', c' :: d' in ch && c' in ch[d'] ==> ch[d'][c'] == channels[d'][c'])
  {
    var ch := LeaveChannel(channels, d, c);
    forall d', c' | (d', c') != (d, c)
      ensures (d' in ch && c' in ch[d']) <==> (d' in channels && c' in channels[d'])
    {
      if d' == d && d in channels && c' in channels[d] {
        assert c' in channels[d] - {c};
      }
    }
  }

  /** One more destination left: the loop step of `disconnect`. */
  lemma LeaveOneMore(channels: Channels, c: ConnectionId, done: set<string>, d: string)
    requires NoEmptyChannel(channels) && d !in done
    ensures LeaveChannel(LeaveChannels(channels, c, done), d, c) == LeaveChannels(channels, c, done + {d})
  {
    var before := LeaveChannels(channels, c, done);
    var after := LeaveChannels(channels, c, done + {d});
    var stepped := LeaveChannel(before, d, c);
    assert d in channels <==> d in before;
    forall k | k in stepped
      ensures k in after && stepped[k] == after[k]
    {
    }
    forall k | k in after
      ensures k in stepped
    {
    }
  }

  /** `disconnect` of a connection with a subscription map keeps the
      registry consistent, leaves no trace of `c` on any channel and keeps
      every other connection's subscriptions. */
  lemma DisconnectKeepsRegistry(channels: Channels, byId: ById, c: ConnectionId)
    requires Registered(channels, byId) && c in byId
    ensures var ch := LeaveChannels(channels, c, byId[c].Keys);
      && Registered(ch, byId - {c})
      && (forall d :: d in ch ==> c !in ch[d])
      && (forall d, c' :: c' != c ==>
            ((d in ch && c' in ch[d]) <==> (d in channels && c' in channels[d])))
      && (forall d, c' :: d in ch && c' in ch[d] ==> ch[d][c'] == channels[d][c'])
  {
    var ch := LeaveChannels(channels, c, byId[c].Keys);
    forall d, c' | c' != c && d in channels && c' in channels[d]
      ensures d in ch && c' in ch[d]
    {
      assert c' in channels[d] - {c};
    }
    forall d | d in ch
      ensures c !in ch[d]
    {
      if c in channels[d] {
        assert d in byId[c];
      }
    }
  }

  /** What `validateUser` answers: 1 for an unknown login (which it then
      stores), 0 for a known login with the same password, -1 otherwise. */
  function LoginResult(users: map<string, string>, login: string, password: string): (r: int)
    ensures r == 1 <==> login !in users
    ensures r == 0 <==> login in users && users[login] == password
    ensures r == -1 <==> login in users && users[login] != password
  {
    if login !in users then 1
    else if users[login] == password then 0
    else -1
  }

  /** The user table after `validateUser`. */
  function UsersAfter(users: map<string, string>, login: string, password: string): (u: map<string, string>)
    ensures login in u && (login in users ==> u == users)
    ensures forall l :: l in users ==> l in u && u[l] == users[l]
  {
    if login !in users then users[login := password] else users
  }

  /** A first login registers the password: logging in again with it is
      accepted and with any other is refused, and a refused login changes
      nothing. */
  lemma LoginAgain(users: map<string, string>, login: string, password: string, other: string)
    requires other != password
    ensures var u := UsersAfter(users, login, password);
      LoginResult(users, login, password) != -1 ==>
        LoginResult(u, login, password) == 0 && LoginResult(u, login, other) == -1
    ensures LoginResult(users, login, password) == -1 ==> UsersAfter(users, login, password) == users
  {
  }

  /** The handlers each message of `send(channel, msg)` reaches, one per
      subscriber in `ids` that has a handler, in the order of `ids`. */
  function Deliveries<H, T>(handlers: map<ConnectionId, H>, ids: seq<ConnectionId>, msg: T): (out: seq<(H, T)>)
    ensures |out| <= |ids|
    ensures (forall i :: 0 <= i < |ids| ==> ids[i] in handlers) ==> |out| == |ids|
    decreases |ids|
  {
    if ids == [] then []
    else
      var last := ids[|ids| - 1];
      Deliveries(handlers, ids[..|ids| - 1], msg) + (if last in handlers then [(handlers[last], msg)] else [])
  }

  /** One more subscriber adds its delivery, if it has a handler, at the end. */
  lemma DeliveriesSnoc<H, T>(handlers: map<ConnectionId, H>, ids: seq<ConnectionId>, i: nat, msg: T)
    requires i < |ids|
    ensures Deliveries(handlers, ids[..i + 1], msg)
         == Deliveries(handlers, ids[..i], msg) + (if ids[i] in handlers then [(handlers[ids[i]], msg)] else [])
  {
    assert ids[..i + 1][..i] == ids[..i];
  }

  /** `ids` lists every element of `keys` once. */
  predicate Enumerates(ids: seq<ConnectionId>, keys: set<ConnectionId>) {
    && |ids| == |keys|
    && (forall i :: 0 <= i < |ids| ==> ids[i] in keys)
    && (forall k :: k in keys ==> k in ids)
    && (forall i, j :: 0 <= i < j < |ids| ==> ids[i] != ids[j])
  }

  /** The keys of a hash map in the order its iteration hands them out,
      which the model leaves open: every key exactly once. */
  method ListKeys(m: map<ConnectionId, string>) returns (ids: seq<ConnectionId>)
    ensures Enumerates(ids, m.Keys)
  {
    ids := [];
    var keys := m.Keys;
    var remaining := keys;
    while remaining != {}
      invariant remaining <= keys
      invariant |ids| + |remaining| == |keys|
      invariant forall i :: 0 <= i < |ids| ==> ids[i] in keys && ids[i] !in remaining
      invariant forall k :: k in keys ==> k in remaining || k in ids
      invariant forall i, j :: 0 <= i < j < |ids| ==> ids[i] != ids[j]
      decreases remaining
    {
      var id :| id in remaining;
      ids := ids + [id];
      remaining := remaining - {id};
    }
  }

  class ConnectionsImpl<H, T> {
    var users: map<string, string>
    var handlers: map<ConnectionId, H>
    var channelSubscribers: Channels
    var subscriptionsById: ById
    /** The messages handed to handlers' `send`, in order. */
    var delivered: seq<(H, T)>

    ghost predicate Valid()
      reads this
    {
      Registered(channelSubscribers, subscriptionsById)
    }

    constructor ()
      ensures Valid()
      ensures users == map[] && handlers == map[] && delivered == []
      ensures channelSubscribers == map[] && subscriptionsById == map[]
    {
      users := map[];
      handlers := map[];
      channelSubscribers := map[];
      subscriptionsById := map[];
      delivered := [];
    }

    /** `connect`: the handler is registered (replacing an earlier one) and
        the connection gets an empty subscription map if it had none. */
    method Connect(connectionId: ConnectionId, handler: H)
      requires Valid()
      modifies this
      ensures Valid()
      ensures handlers == old(handlers)[connectionId := handler]
      ensures subscriptionsById == (if connectionId in old(subscriptionsById) then old(subscriptionsById)
                                    else old(subscriptionsById)[connectionId := map[]])
      ensures channelSubscribers == old(channelSubscribers)
      ensures users == old(users) && delivered == old(delivered)
    {
      handlers := handlers[connectionId := handler];
      if connectionId !in subscriptionsById {
        subscriptionsById := subscriptionsById[connectionId := map[]];
      }
    }

    /** `send(connectionId, msg)`: false exactly when no handler is
        registered; otherwise the message goes to that handler. */
    method SendTo(connectionId: ConnectionId, msg: T) returns (sentOk: bool)
      modifies this
      ensures sentOk <==> connectionId in handlers
      ensures delivered == old(delivered) + (if sentOk then [(handlers[connectionId], msg)] else [])
      ensures users == old(users) && handlers == old(handlers)
      ensures channelSubscribers == old(channelSubscribers) && subscriptionsById == old(subscriptionsById)
    {
      if connectionId !in handlers {
        return false;
      }
      var h := handlers[connectionId];
      delivered := delivered + [(h, msg)];
      return true;
    }

    /** `send(channel, msg)`: the message goes to every subscriber of the
        channel that has a handler, in some order of the subscribers
        (`order`, in which a hash map happens to list its keys). */
    method SendToChannel(channel: string, msg: T) returns (ghost order: seq<ConnectionId>)
      modifies this
      ensures channel !in old(channelSubscribers) ==> order == []
      ensures channel in old(channelSubscribers) ==> Enumerates(order, old(channelSubscribers)[channel].Keys)
      ensures delivered == old(delivered) + Deliveries(handlers, order, msg)
      ensures users == old(users) && handlers == old(handlers)
      ensures channelSubscribers == old(channelSubscribers) && subscriptionsById == old(subscriptionsById)
    {
      order := [];
      if channel !in channelSubscribers {
        return;
      }
      var subs := channelSubscribers[channel];
      var ids := ListKeys(subs);
      for i := 0 to |ids|
        invariant delivered == old(delivered) + Deliveries(handlers, ids[..i], msg)
        invariant users == old(users) && handlers == old(handlers)
        invariant channelSubscribers == old(channelSubscribers) && subscriptionsById == old(subscriptionsById)
      {
        var _ := SendTo(ids[i], msg);
        DeliveriesSnoc(handlers, ids, i, msg);
      }
      assert ids[..|ids|] == ids;
      order := ids;
    }

    /** `subscribe`: both maps get the pair, created on demand. */
    method Subscribe(connectionId: ConnectionId, destination: string, subscriptionId: string)
      requires Valid()
      modifies this
      ensures Valid()
      ensures subscriptionsById == SubscribeById(old(subscriptionsById), connectionId, destination, subscriptionId)
      ensures channelSubscribers == SubscribeChannel(old(channelSubscribers), connectionId, destination, subscriptionId)
      ensures SubscriptionIdOf(connectionId, destination) == Some(subscriptionId)
      ensures connectionId in Subscribers(destination) && Subscribers(destination)[connectionId] == subscriptionId
      ensures users == old(users) && handlers == old(handlers) && delivered == old(delivered)
    {
      SubscribeKeepsRegistry(channelSubscribers, subscriptionsById, connectionId, destination, subscriptionId);
      var my := if connectionId in subscriptionsById then subscriptionsById[connectionId] else map[];
      subscriptionsById := subscriptionsById[connectionId := my[destination := subscriptionId]];
      var subs := if destination in channelSubscribers then channelSubscribers[destination] else map[];
      channelSubscribers := channelSubscribers[destination := subs[connectionId := subscriptionId]];
    }

    /** `unsubscribe`: the pair leaves both maps, and the channel goes
        when it has no subscriber left. */
    method Unsubscribe(connectionId: ConnectionId, destination: string)
      requires Valid()
      modifies this
      ensures Valid()
      ensures subscriptionsById == UnsubscribeById(old(subscriptionsById), connectionId, destination)
      ensures channelSubscribers == LeaveChannel(old(channelSubscribers), destination, connectionId)
      ensures SubscriptionIdOf(connectionId, destination) == None
      ensures connectionId !in Subscribers(destination)
      ensures users == old(users) && handlers == old(handlers) && delivered == old(delivered)
    {
      UnsubscribeKeepsRegistry(channelSubscribers, subscriptionsById, connectionId, destination);
      if connectionId in subscriptionsById {
        var my := subscriptionsById[connectionId];
        subscriptionsById := subscriptionsById[connectionId := my - {destination}];
      }
      if destination in channelSubscribers {
        var subs := channelSubscribers[destination] - {connectionId};
        if subs == map[] {
          channelSubscribers := channelSubscribers - {destination};
        } else {
          channelSubscribers := channelSubscribers[destination := subs];
        }
      }
    }

    /** `disconnect`: the connection's subscription map is dropped and the
        connection leaves each channel in it; nothing happens when it has
        no subscription map. Handlers are not touched. */
    method Disconnect(connectionId: ConnectionId)
      requires Valid()
      modifies this
      ensures Valid()
      ensures connectionId !in old(subscriptionsById) ==>
        subscriptionsById == old(subscriptionsById) && channelSubscribers == old(channelSubscribers)
      ensures connectionId in old(subscriptionsById) ==>
        && subscriptionsById == old(subscriptionsById) - {connectionId}
        && channelSubscribers == LeaveChannels(old(channelSubscribers), connectionId,
                                               old(subscriptionsById)[connectionId].Keys)
      ensures forall d :: d in channelSubscribers ==> connectionId !in channelSubscribers[d]
      ensures users == old(users) && handlers == old(handlers) && delivered == old(delivered)
    {
      if connectionId !in subscriptionsById {
        return;
      }
      DisconnectKeepsRegistry(channelSubscribers, subscriptionsById, connectionId);
      var mySubs := subscriptionsById[connectionId];
      subscriptionsById := subscriptionsById - {connectionId};
      var remaining := mySubs.Keys;
      ghost var done: set<string> := {};
      while remaining != {}
        invariant remaining + done == mySubs.Keys && remaining !! done
        invariant channelSubscribers == LeaveChannels(old(channelSubscribers), connectionId, done)
        invariant subscriptionsById == old(subscriptionsById) - {connectionId}
        invariant users == old(users) && handlers == old(handlers) && delivered == old(delivered)
        decreases remaining
      {
        var dest :| dest in remaining;
        LeaveOneMore(old(channelSubscribers), connectionId, done, dest);
        if dest in channelSubscribers {
          var subs := channelSubscribers[dest] - {connectionId};
          if subs == map[] {
            channelSubscribers := channelSubscribers - {dest};
          } else {
            channelSubscribers := channelSubscribers[dest := subs];
          }
        }
        remaining := remaining - {dest};
        done := done + {dest};
      }
    }

    /** `validateUser`: see `LoginResult`; only an unknown login changes
        the user table. */
    method ValidateUser(login: string, password: string) returns (r: int)
      modifies this
      ensures r == LoginResult(old(users), login, password)
      ensures users == UsersAfter(old(users), login, password)
      ensures handlers == old(handlers) && delivered == old(delivered)
      ensures channelSubscribers == old(channelSubscribers) && subscriptionsById == old(subscriptionsById)
    {
      if login !in users {
        users := users[login := password];
        return 1;
      }
      var pass := users[login];
      if pass == password {
        return 0;
      }
      return -1;
    }

    /** `getSubscribers`: the channel's subscriber map, empty for an
        unknown channel. In a consistent registry these are exactly the
        connections whose own map lists the channel, with the same ids. */
    function Subscribers(destination: string): (m: map<ConnectionId, string>)
      reads this
      ensures destination !in channelSubscribers ==> m == map[]
      ensures Valid() ==> forall c :: c in m <==> c in subscriptionsById && destination in subscriptionsById[c]
      ensures Valid() ==> forall c :: c in m ==> m[c] == subscriptionsById[c][destination]
    {
      if destination in channelSubscribers then channelSubscribers[destination] else map[]
    }

    /** `getSubscriptionId`: the connection's id for the destination, or
        none (`null`). In a consistent registry it agrees with the channel
        side. */
    function SubscriptionIdOf(connectionId: ConnectionId, destination: string): (r: Option<string>)
      reads this
      ensures r.Some? <==> connectionId in subscriptionsById && destination in subscriptionsById[connectionId]
      ensures r.Some? ==> r.value == subscriptionsById[connectionId][destination]
      ensures Valid() ==> (r.Some? <==> connectionId in Subscribers(destination))
      ensures Valid() && r.Some? ==> Subscribers(destination)[connectionId] == r.value
    {
      if connectionId in subscriptionsById && destination in subscriptionsById[connectionId] then
        Some(subscriptionsById[connectionId][destination])
      else None
    }

    /** `getDestinationBySubId`: some destination the connection holds
        under `subId`, or none (`null`) when there is no such one. */
    method DestinationBySubId(connectionId: ConnectionId, subId: string) returns (r: Option<string>)
      ensures r.Some? ==> && connectionId in subscriptionsById
                          && r.value in subscriptionsById[connectionId]
                          && subscriptionsById[connectionId][r.value] == subId
      ensures r.None? ==> connectionId !in subscriptionsById
                          || forall d :: d in subscriptionsById[connectionId] ==> subscriptionsById[connectionId][d] != subId
    {
      if connectionId !in subscriptionsById {
        return None;
      }
      var my := subscriptionsById[connectionId];
      var remaining := my.Keys;
      while remaining != {}
        invariant remaining <= my.Keys
        invariant forall d :: d in my && d !in remaining ==> my[d] != subId
        decreases remaining
      {
        var d :| d in remaining;
        if my[d] == subId {
          return Some(d);
        }
        remaining := remaining - {d};
      }
      return None;
    }
  }
}
