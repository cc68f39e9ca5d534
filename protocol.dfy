/** The client's session state and frame builders
    (`client/src/StompProtocol.cpp`, fields in `client/include/StompProtocol.h`). */
module Protocol {
  import opened Wrappers
  import opened Text
  import opened FrameTypes
  import opened Frames
  import opened OrderedMaps

  /** `buildConnectFrame`: a CONNECT with no body and the four login
      headers. */
  function ConnectFrame(host: string, user: string, passcode: string): (f: Frame)
    ensures f.kind == CONNECT && f.body == ""
    ensures f.headers == [Header("accept-version", "1.2"), Header("host", host),
                          Header("login", user), Header("passcode", passcode)]
  {
    Frame(CONNECT, [Header("accept-version", "1.2"), Header("host", host),
                    Header("login", user), Header("passcode", passcode)], "")
  }

  /** The server reads back from a CONNECT exactly what was put in it. */
  lemma ConnectFrameFields(host: string, user: string, passcode: string)
    ensures var hs := ConnectFrame(host, user, passcode).headers;
      && HeaderValue(hs, "accept-version") == "1.2"
      && HeaderValue(hs, "host") == host
      && HeaderValue(hs, "login") == user
      && HeaderValue(hs, "passcode") == passcode
  {
    var hs := ConnectFrame(host, user, passcode).headers;
    HeaderValueFirst(hs, "login", 2);
    HeaderValueFirst(hs, "passcode", 3);
  }

  /** `buildSendFrame`: `destination` first, then `filename` and `receipt`
      only when they are not empty; the body is passed through. */
  function SendFrame(destination: string, body: string, filename: string, receiptId: string): (f: Frame)
    ensures f.kind == SEND && f.body == body
    ensures |f.headers| == 1 + (if filename != "" then 1 else 0) + (if receiptId != "" then 1 else 0)
    ensures f.headers == [Header("destination", destination)]
      + (if filename != "" then [Header("filename", filename)] else [])
      + (if receiptId != "" then [Header("receipt", receiptId)] else [])
    ensures HeaderValue(f.headers, "destination") == destination
    ensures HeaderValue(f.headers, "filename") == filename
    ensures HeaderValue(f.headers, "receipt") == receiptId
  {
    var hs := [Header("destination", destination)]
      + (if filename != "" then [Header("filename", filename)] else [])
      + (if receiptId != "" then [Header("receipt", receiptId)] else []);
    SendHeaderValues(destination, filename, receiptId, hs);
    Frame(SEND, hs, body)
  }

  lemma SendHeaderValues(destination: string, filename: string, receiptId: string, hs: seq<Header>)
    requires hs == [Header("destination", destination)]
      + (if filename != "" then [Header("filename", filename)] else [])
      + (if receiptId != "" then [Header("receipt", receiptId)] else [])
    ensures HeaderValue(hs, "destination") == destination
    ensures HeaderValue(hs, "filename") == filename
    ensures HeaderValue(hs, "receipt") == receiptId
  {
    var n := |hs|;
    assert forall j :: 0 <= j < n ==> hs[j].key in {"destination", "filename", "receipt"};
    if filename != "" {
      HeaderValueFirst(hs, "filename", 1);
    } else {
      HeaderValueAbsent(hs, "filename");
    }
    if receiptId != "" {
      HeaderValueFirst(hs, "receipt", n - 1);
    } else {
      HeaderValueAbsent(hs, "receipt");
    }
  }

  /** The SUBSCRIBE `buildSubscribeFrame` makes once it has drawn `subId`. */
  function SubscribeFrame(destination: string, subId: string): (f: Frame)
    ensures f.kind == SUBSCRIBE && f.body == ""
    ensures f.headers == [Header("destination", destination), Header("id", subId)]
  {
    Frame(SUBSCRIBE, [Header("destination", destination), Header("id", subId)], "")
  }

  /** `buildUnsubscribeFrame`: one `id` header, no body. */
  function UnsubscribeFrame(subscriptionId: string): (f: Frame)
    ensures f.kind == UNSUBSCRIBE && f.body == "" && f.headers == [Header("id", subscriptionId)]
  {
    Frame(UNSUBSCRIBE, [Header("id", subscriptionId)], "")
  }

  /** `buildDisconnectFrame`: one `receipt` header, no body. */
  function DisconnectFrame(receiptId: string): (f: Frame)
    ensures f.kind == DISCONNECT && f.body == "" && f.headers == [Header("receipt", receiptId)]
  {
    Frame(DISCONNECT, [Header("receipt", receiptId)], "")
  }

  /** The header keys the builders use can be written on a header line. */
  lemma BuilderKeysEncodable()
    ensures ':' !in "accept-version" && '\n' !in "accept-version" && '\n' !in "1.2"
    ensures ':' !in "host" && '\n' !in "host"
    ensures ':' !in "login" && '\n' !in "login"
    ensures ':' !in "passcode" && '\n' !in "passcode"
    ensures ':' !in "destination" && '\n' !in "destination"
    ensures ':' !in "filename" && '\n' !in "filename"
    ensures ':' !in "receipt" && '\n' !in "receipt"
    ensures ':' !in "id" && '\n' !in "id"
  {
  }

  lemma HeadersEncodableAppend(a: seq<Header>, b: seq<Header>)
    requires HeadersEncodable(a) && HeadersEncodable(b)
    ensures HeadersEncodable(a + b)
  {
  }

  /** Every frame the builders make reaches the server intact when the texts
      put into its headers hold no newline. */
  lemma ConnectFrameRoundTrip(host: string, user: string, passcode: string)
    requires '\n' !in host && '\n' !in user && '\n' !in passcode
    ensures Decoding(Encoding(ConnectFrame(host, user, passcode))) == Ok(ConnectFrame(host, user, passcode))
  {
    BuilderKeysEncodable();
    RoundTrip(ConnectFrame(host, user, passcode));
  }

  lemma SendFrameRoundTrip(destination: string, body: string, filename: string, receiptId: string)
    requires '\n' !in destination && '\n' !in filename && '\n' !in receiptId
    ensures Decoding(Encoding(SendFrame(destination, body, filename, receiptId)))
      == Ok(SendFrame(destination, body, filename, receiptId))
  {
    BuilderKeysEncodable();
    var a := [Header("destination", destination)];
    var b := if filename != "" then [Header("filename", filename)] else [];
    var c := if receiptId != "" then [Header("receipt", receiptId)] else [];
    assert HeadersEncodable(a) && HeadersEncodable(b) && HeadersEncodable(c);
    HeadersEncodableAppend(a, b);
    HeadersEncodableAppend(a + b, c);
    RoundTrip(SendFrame(destination, body, filename, receiptId));
  }

  lemma SubscribeFrameRoundTrip(destination: string, subId: string)
    requires '\n' !in destination && '\n' !in subId
    ensures Decoding(Encoding(SubscribeFrame(destination, subId))) == Ok(SubscribeFrame(destination, subId))
  {
    BuilderKeysEncodable();
    RoundTrip(SubscribeFrame(destination, subId));
  }

  lemma SingleHeaderFramesRoundTrip(id: string)
    requires '\n' !in id
    ensures Decoding(Encoding(UnsubscribeFrame(id))) == Ok(UnsubscribeFrame(id))
    ensures Decoding(Encoding(DisconnectFrame(id))) == Ok(DisconnectFrame(id))
  {
    BuilderKeysEncodable();
    RoundTrip(UnsubscribeFrame(id));
    RoundTrip(DisconnectFrame(id));
  }

  /** `validateConnectResponse`: the answer to a CONNECT is CONNECTED or
      ERROR. */
  function ValidConnectResponse(f: Frame): (ok: bool)
    ensures ok <==> f.kind in {CONNECTED, ERROR}
  {
    if f.kind != CONNECTED && f.kind != ERROR then false else true
  }

  /** `validateMessageFrame`: a MESSAGE whose `destination`, `subscription`
      and `message-id` are all present and not empty. */
  function ValidMessageFrame(f: Frame): (ok: bool)
    ensures ok <==> (&& f.kind == MESSAGE
                     && HeaderValue(f.headers, "destination") != ""
                     && HeaderValue(f.headers, "subscription") != ""
                     && HeaderValue(f.headers, "message-id") != "")
  {
    if f.kind != MESSAGE then false
    else
      var dest := HeaderValue(f.headers, "destination");
      var subId := HeaderValue(f.headers, "subscription");
      var msgId := HeaderValue(f.headers, "message-id");
      dest != "" && subId != "" && msgId != ""
  }

  /** A MESSAGE is rejected as soon as one of the three headers is missing. */
  lemma MessageNeedsHeader(f: Frame, k: string)
    requires k in {"destination", "subscription", "message-id"}
    requires forall j :: 0 <= j < |f.headers| ==> f.headers[j].key != k
    ensures !ValidMessageFrame(f)
  {
    HeaderValueAbsent(f.headers, k);
  }

  /** None of the client's own frames passes either validator. */
  lemma BuiltFramesAreNotResponses(a: string, b: string, c: string, body: string)
    ensures !ValidConnectResponse(ConnectFrame(a, b, c)) && !ValidMessageFrame(ConnectFrame(a, b, c))
    ensures !ValidConnectResponse(SendFrame(a, body, b, c)) && !ValidMessageFrame(SendFrame(a, body, b, c))
    ensures !ValidConnectResponse(SubscribeFrame(a, b)) && !ValidMessageFrame(SubscribeFrame(a, b))
    ensures !ValidConnectResponse(UnsubscribeFrame(a)) && !ValidMessageFrame(UnsubscribeFrame(a))
    ensures !ValidConnectResponse(DisconnectFrame(a)) && !ValidMessageFrame(DisconnectFrame(a))
  {
  }

  /** `StompProtocol`: the id counters, the game table and the login state.
      The ghost sets record every counter value handed out so far. */
  class Session {
    var nextReceiptId: int
    var nextSubscriptionId: int
    var gameToSubscriptionId: seq<Entry>
    var loggedIn: bool
    var currentUser: string
    ghost var receiptsIssued: set<nat>
    ghost var subscriptionsIssued: set<nat>

    /** The counters are positive `int`s above every value issued, and the
        table is a `std::map`. */
    ghost predicate Valid()
      reads this
    {
      && 1 <= nextReceiptId <= MaxInt
      && 1 <= nextSubscriptionId <= MaxInt
      && Sorted(gameToSubscriptionId)
      && (forall n :: n in receiptsIssued ==> 1 <= n < nextReceiptId)
      && (forall n :: n in subscriptionsIssued ==> 1 <= n < nextSubscriptionId)
    }

    constructor ()
      ensures Valid()
      ensures nextReceiptId == 1 && nextSubscriptionId == 1
      ensures gameToSubscriptionId == [] && !loggedIn && currentUser == ""
      ensures receiptsIssued == {} && subscriptionsIssued == {}
    {
      nextReceiptId := 1;
      nextSubscriptionId := 1;
      gameToSubscriptionId := [];
      loggedIn := false;
      currentUser := "";
      receiptsIssued := {};
      subscriptionsIssued := {};
    }

    /** `getNextReceiptId`: the current value in decimal, then one more.
        The string differs from every receipt id handed out before. */
    method GetNextReceiptId() returns (id: string)
      requires Valid() && nextReceiptId < MaxInt
      modifies this
      ensures Valid()
      ensures id == NatToString(old(nextReceiptId)) && nextReceiptId == old(nextReceiptId) + 1
      ensures receiptsIssued == old(receiptsIssued) + {old(nextReceiptId)}
      ensures forall n :: n in old(receiptsIssued) ==> NatToString(n) != id
      ensures nextSubscriptionId == old(nextSubscriptionId) && subscriptionsIssued == old(subscriptionsIssued)
      ensures gameToSubscriptionId == old(gameToSubscriptionId)
      ensures loggedIn == old(loggedIn) && currentUser == old(currentUser)
    {
      id := NatToString(nextReceiptId);
      forall n | n in receiptsIssued ensures NatToString(n) != id {
        NatToStringInjective(n, nextReceiptId);
      }
      receiptsIssued := receiptsIssued + {nextReceiptId};
      nextReceiptId := nextReceiptId + 1;
    }

    /** `getNextSubscriptionId`: the same for subscription ids. */
    method GetNextSubscriptionId() returns (id: string)
      requires Valid() && nextSubscriptionId < MaxInt
      modifies this
      ensures Valid()
      ensures id == NatToString(old(nextSubscriptionId)) && nextSubscriptionId == old(nextSubscriptionId) + 1
      ensures subscriptionsIssued == old(subscriptionsIssued) + {old(nextSubscriptionId)}
      ensures forall n :: n in old(subscriptionsIssued) ==> NatToString(n) != id
      ensures nextReceiptId == old(nextReceiptId) && receiptsIssued == old(receiptsIssued)
      ensures gameToSubscriptionId == old(gameToSubscriptionId)
      ensures loggedIn == old(loggedIn) && currentUser == old(currentUser)
    {
      id := NatToString(nextSubscriptionId);
      forall n | n in subscriptionsIssued ensures NatToString(n) != id {
        NatToStringInjective(n, nextSubscriptionId);
      }
      subscriptionsIssued := subscriptionsIssued + {nextSubscriptionId};
      nextSubscriptionId := nextSubscriptionId + 1;
    }

    /** `buildSubscribeFrame`: draws the next subscription id and puts the
        value it had before into the `id` header. */
    method BuildSubscribeFrame(destination: string) returns (f: Frame)
      requires Valid() && nextSubscriptionId < MaxInt
      modifies this
      ensures Valid()
      ensures f == SubscribeFrame(destination, NatToString(old(nextSubscriptionId)))
      ensures nextSubscriptionId == old(nextSubscriptionId) + 1
      ensures subscriptionsIssued == old(subscriptionsIssued) + {old(nextSubscriptionId)}
      ensures forall n :: n in old(subscriptionsIssued) ==> NatToString(n) != HeaderValue(f.headers, "id")
      ensures nextReceiptId == old(nextReceiptId) && receiptsIssued == old(receiptsIssued)
      ensures gameToSubscriptionId == old(gameToSubscriptionId)
      ensures loggedIn == old(loggedIn) && currentUser == old(currentUser)
    {
      var subId := GetNextSubscriptionId();
      f := SubscribeFrame(destination, subId);
      assert f.headers[1..] == [Header("id", subId)];
    }

    /** `setLoggedIn`: logging out always forgets the user. */
    method SetLoggedIn(logged: bool, user: string)
      requires Valid()
      modifies this
      ensures Valid()
      ensures loggedIn == logged && currentUser == (if logged then user else "")
      ensures nextReceiptId == old(nextReceiptId) && nextSubscriptionId == old(nextSubscriptionId)
      ensures receiptsIssued == old(receiptsIssued) && subscriptionsIssued == old(subscriptionsIssued)
      ensures gameToSubscriptionId == old(gameToSubscriptionId)
    {
      loggedIn := logged;
      if logged {
        currentUser := user;
      } else {
        currentUser := "";
      }
    }

    /** `getSubscriptionId`: the id stored for the game, or `""`. */
    function SubscriptionId(game: string): (id: string)
      reads this
      ensures game !in Keys(gameToSubscriptionId) ==> id == ""
      ensures game in Keys(gameToSubscriptionId) ==> Entry(game, id) in gameToSubscriptionId
    {
      Get(gameToSubscriptionId, game).GetOr("")
    }

    /** `isSubscribedTo`: the game has an entry. */
    function IsSubscribedTo(game: string): (b: bool)
      reads this
      ensures b <==> Get(gameToSubscriptionId, game).Some?
    {
      game in Keys(gameToSubscriptionId)
    }

    /** `addSubscription`: `gameToSubscriptionId[game] = subscriptionId`. */
    method AddSubscription(game: string, subscriptionId: string)
      requires Valid()
      modifies this
      ensures Valid()
      ensures gameToSubscriptionId == Put(old(gameToSubscriptionId), game, subscriptionId)
      ensures IsSubscribedTo(game) && SubscriptionId(game) == subscriptionId
      ensures forall g :: g != game ==> IsSubscribedTo(g) == old(IsSubscribedTo(g)) && SubscriptionId(g) == old(SubscriptionId(g))
      ensures nextReceiptId == old(nextReceiptId) && nextSubscriptionId == old(nextSubscriptionId)
      ensures receiptsIssued == old(receiptsIssued) && subscriptionsIssued == old(subscriptionsIssued)
      ensures loggedIn == old(loggedIn) && currentUser == old(currentUser)
    {
      gameToSubscriptionId := Put(gameToSubscriptionId, game, subscriptionId);
    }

    /** `removeSubscription`: `gameToSubscriptionId.erase(game)`. */
    method RemoveSubscription(game: string)
      requires Valid()
      modifies this
      ensures Valid()
      ensures gameToSubscriptionId == Remove(old(gameToSubscriptionId), game)
      ensures !IsSubscribedTo(game) && SubscriptionId(game) == ""
      ensures forall g :: g != game ==> IsSubscribedTo(g) == old(IsSubscribedTo(g)) && SubscriptionId(g) == old(SubscriptionId(g))
      ensures nextReceiptId == old(nextReceiptId) && nextSubscriptionId == old(nextSubscriptionId)
      ensures receiptsIssued == old(receiptsIssued) && subscriptionsIssued == old(subscriptionsIssued)
      ensures loggedIn == old(loggedIn) && currentUser == old(currentUser)
    {
      gameToSubscriptionId := Remove(gameToSubscriptionId, game);
    }

    /** `clearAllSubscriptions`: the table is emptied, the counters stay. */
    method ClearAllSubscriptions()
      requires Valid()
      modifies this
      ensures Valid()
      ensures gameToSubscriptionId == []
      ensures forall g :: !IsSubscribedTo(g) && SubscriptionId(g) == ""
      ensures nextReceiptId == old(nextReceiptId) && nextSubscriptionId == old(nextSubscriptionId)
      ensures receiptsIssued == old(receiptsIssued) && subscriptionsIssued == old(subscriptionsIssued)
      ensures loggedIn == old(loggedIn) && currentUser == old(currentUser)
    {
      gameToSubscriptionId := [];
    }
  }
}
