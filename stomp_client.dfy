/** The client program's own logic (`client/src/StompClient.cpp`): the
    string helpers, one step of the receiving thread `listenToServer`, and
    the state changes the `report` and `logout` commands make. */
module Client {
  import opened Wrappers
  import opened Text
  import opened OrderedMaps
  import opened FrameTypes
  import opened Frames
  import opened Protocol
  import opened Events
  import opened EventBodies
  import opened GameDb

  /** `trim`: the text without its leading and trailing white space. */
  function Trimmed(s: string): string {
    DropTrailingSpaces(DropLeadingSpaces(s))
  }

  predicate AllSpace(t: string) {
    forall k :: 0 <= k < |t| ==> IsSpace(t[k])
  }

  /** `r` is `s` less the white space `s[..i]` at its start and some white
      space at its end. */
  predicate TrimAt(s: string, r: string, i: nat) {
    i + |r| <= |s| && s[i..i + |r|] == r && AllSpace(s[..i]) && AllSpace(s[i + |r|..])
  }

  /** `trim` removes white space at both ends and nothing else, and what is
      left is empty or starts and ends with a character that is not white
      space. */
  lemma TrimShape(s: string)
    ensures exists i :: TrimAt(s, Trimmed(s), i)
    ensures Trimmed(s) != [] ==> !IsSpace(Trimmed(s)[0]) && !IsSpace(Trimmed(s)[|Trimmed(s)| - 1])
    ensures Trimmed(s) == [] ==> AllSpace(s)
  {
    var left := DropLeadingSpaces(s);
    var r := DropTrailingSpaces(left);
    var i := |s| - |left|;
    LeadingSpaces(s);
    TrailingSpaces(left);
    assert s[i..i + |r|] == left[..|r|];
    assert s[i + |r|..] == left[|r|..];
    assert r == Trimmed(s) && TrimAt(s, Trimmed(s), i);
    if r != [] {
      assert r[0] == left[0];
    } else {
      assert left == [];
    }
  }

  lemma LeadingSpaces(s: string)
    ensures AllSpace(s[..|s| - |DropLeadingSpaces(s)|])
  {
  }

  lemma TrailingSpaces(s: string)
    ensures AllSpace(s[|DropTrailingSpaces(s)|..])
  {
    var r := DropTrailingSpaces(s);
    forall k | 0 <= k < |s| - |r| ensures IsSpace(s[|r|..][k]) {
      assert s[|r|..][k] == s[|r| + k];
    }
  }

  /** Trimming twice changes nothing more. */
  lemma TrimIdempotent(s: string)
    ensures Trimmed(Trimmed(s)) == Trimmed(s)
  {
    var r := Trimmed(s);
    TrimShape(s);
    if r != [] {
      assert DropLeadingSpaces(r) == r;
    }
  }

  /** `trim`: erases the first character while it is white space, then pops
      the last while it is. */
  method Trim(s: string) returns (r: string)
    ensures r == Trimmed(s)
  {
    r := EraseLeadingSpaces(s);
    r := PopTrailingSpaces(r);
  }

  method EraseLeadingSpaces(s: string) returns (r: string)
    ensures r == DropLeadingSpaces(s)
  {
    r := s;
    while r != [] && IsSpace(r[0])
      invariant DropLeadingSpaces(r) == DropLeadingSpaces(s)
      decreases |r|
    {
      r := r[1..];
    }
  }

  method PopTrailingSpaces(s: string) returns (r: string)
    ensures r == DropTrailingSpaces(s)
  {
    r := s;
    while r != [] && IsSpace(r[|r| - 1])
      invariant DropTrailingSpaces(r) == DropTrailingSpaces(s)
      decreases |r|
    {
      r := r[..|r| - 1];
    }
  }

  /** The destination prefix of a game's channel. */
  const TopicPrefix: string := "/topic/"

  /** `getGameFromDestination`: the game a `/topic/` destination names; any
      other destination is returned as it is. */
  function GameFromDestination(dest: string): (game: string)
    ensures StartsWith(dest, TopicPrefix) ==> dest == TopicPrefix + game
    ensures !StartsWith(dest, TopicPrefix) ==> game == dest
  {
    if |dest| >= |TopicPrefix| && dest[..|TopicPrefix|] == TopicPrefix then dest[|TopicPrefix|..] else dest
  }

  /** The game's channel gives back the game. */
  lemma GameFromTopic(game: string)
    ensures GameFromDestination(TopicPrefix + game) == game
  {
    assert StartsWith(TopicPrefix + game, TopicPrefix);
    assert (TopicPrefix + game)[|TopicPrefix|..] == game;
  }

  /** The variables the receiving thread shares with the command loop. */
  datatype Shared = Shared(
    expectedReceiptId: string,
    receiptArrived: bool,
    loginResponseReceived: bool,
    loginError: string,
    running: bool)

  /** What `getFrameAscii` delivers: the text of one frame without its NUL,
      or the end of the stream (`false`). */
  datatype Input = Received(raw: string) | EndOfStream

  /** The arguments one `addEvent` call receives. */
  datatype Stored = Stored(game: string, user: string, ev: Event)

  /** The result of one pass of the receive loop: the new shared state,
      whether the loop goes on, and the event handed to the store; or
      `Faulted` when the pass does not complete (the frame parser throws or
      never returns, or `std::stoi` throws in the body parser). */
  datatype Outcome =
    | Next(shared: Shared, listening: bool, stored: Option<Stored>)
    | Faulted

  /** The reaction to one decoded frame. */
  function Handle(s: Shared, activeUser: string, f: Frame): (o: Outcome)
    ensures o.Next? ==> o.shared.expectedReceiptId == s.expectedReceiptId
    ensures o.Next? && o.stored.Some? ==> f.kind == MESSAGE
    ensures o.Next? && !o.listening ==> f.kind == ERROR && !o.shared.running
    ensures o.Faulted? <==> f.kind == MESSAGE && HeaderValue(f.headers, "destination") != "" && Parse(f.body).None?
    ensures f.kind == MESSAGE && HeaderValue(f.headers, "destination") == "" ==> o == Next(s, true, None)
    ensures f.kind !in {MESSAGE, RECEIPT, CONNECTED, ERROR} ==> o == Next(s, true, None)
  {
    if f.kind == MESSAGE then
      var dest := HeaderValue(f.headers, "destination");
      if dest == "" then Next(s, true, None)
      else
        match Parse(f.body)
        case None => Faulted
        case Some(ev) => Next(s, true, Some(Stored(GameFromDestination(dest), UserFromBody(f.body, activeUser), ev)))
    else if f.kind == RECEIPT then
      var arrived := HeaderValue(f.headers, "receipt-id") == s.expectedReceiptId;
      Next(if arrived then s.(receiptArrived := true) else s, true, None)
    else if f.kind == CONNECTED then
      Next(s.(loginResponseReceived := true, loginError := ""), true, None)
    else if f.kind == ERROR then
      var msg := HeaderValue(f.headers, "message");
      Next(s.(loginResponseReceived := true, loginError := if msg == "" then f.body else msg, running := false),
        false, None)
    else Next(s, true, None)
  }

  /** One pass of the `listenToServer` loop; `disconnecting` is the flag
      `logout` raises. */
  function Dispatch(s: Shared, disconnecting: bool, activeUser: string, input: Input): (o: Outcome)
    ensures input.EndOfStream? ==> o.Next? && !o.listening && o.stored.None?
    ensures o.Next? ==> o.shared.expectedReceiptId == s.expectedReceiptId
  {
    match input
    case EndOfStream => Next(if disconnecting then s.(receiptArrived := true) else s, false, None)
    case Received(raw) =>
      match Decoding(raw + "\0")
      case Err(_) => Faulted
      case Ok(f) => Handle(s, activeUser, f)
  }

  /** A frame the server wrote is handled as that frame. */
  lemma DispatchEncoded(s: Shared, disconnecting: bool, activeUser: string, f: Frame)
    requires Encodable(f)
    ensures Dispatch(s, disconnecting, activeUser, Received(Encoding(f))) == Handle(s, activeUser, f)
  {
    RoundTrip(f);
  }

  /** The end of the stream wakes the waiting `logout` only while it is
      logging out, and always ends the loop. */
  lemma EndOfStreamEndsLoop(s: Shared, disconnecting: bool, activeUser: string)
    ensures var o := Dispatch(s, disconnecting, activeUser, EndOfStream);
      && o == Next(o.shared, false, None)
      && o.shared.receiptArrived == (s.receiptArrived || disconnecting)
      && o.shared.(receiptArrived := s.receiptArrived) == s
  {
  }

  /** A RECEIPT answers the waiting command exactly when it carries the
      expected id; any other RECEIPT changes nothing. */
  lemma ReceiptMatchesExpected(s: Shared, activeUser: string, f: Frame)
    requires f.kind == RECEIPT
    ensures var o := Handle(s, activeUser, f);
      && o.Next? && o.listening && o.stored.None?
      && (HeaderValue(f.headers, "receipt-id") == s.expectedReceiptId ==> o.shared == s.(receiptArrived := true))
      && (HeaderValue(f.headers, "receipt-id") != s.expectedReceiptId ==> o.shared == s)
  {
  }

  /** The receipt for an earlier request (its id drawn from the same
      counter, so a different number) does not wake the waiting command. */
  lemma EarlierReceiptIgnored(s: Shared, activeUser: string, earlier: nat, current: nat)
    requires earlier != current && s.expectedReceiptId == NatToString(current)
    ensures Handle(s, activeUser, Frame(RECEIPT, [Header("receipt-id", NatToString(earlier))], ""))
      == Next(s, true, None)
  {
    NatToStringInjective(earlier, current);
  }

  /** CONNECTED and ERROR both answer the waiting login; ERROR records the
      `message` header, or the body when that is empty, stops the client
      and ends the loop. */
  lemma LoginResponses(s: Shared, activeUser: string, f: Frame)
    requires f.kind in {CONNECTED, ERROR}
    ensures var o := Handle(s, activeUser, f);
      && o.Next? && o.stored.None? && o.shared.loginResponseReceived
      && o.shared.expectedReceiptId == s.expectedReceiptId && o.shared.receiptArrived == s.receiptArrived
      && (f.kind == CONNECTED ==> o.listening && o.shared.loginError == "" && o.shared.running == s.running)
      && (f.kind == ERROR ==>
            && !o.listening && !o.shared.running
            && o.shared.loginError == (if HeaderValue(f.headers, "message") != "" then HeaderValue(f.headers, "message") else f.body))
  {
  }

  /** The MESSAGE the server forwards for a report on the channel of
      `game`, whose body `buildEventBody(ev, user)` wrote, hands exactly
      `(game, user, ev)` to the store. */
  lemma MessageDeliversReport(s: Shared, disconnecting: bool, activeUser: string,
                              game: string, subId: string, msgId: string, ev: Event, user: string)
    requires OneLine(game) && '\n' !in subId && '\n' !in msgId
    requires WellFormed(ev) && Writable(ev) && OneLine(user)
    ensures var f := Frame(MESSAGE, [Header("destination", TopicPrefix + game), Header("subscription", subId),
                                     Header("message-id", msgId)], EventBodyText(ev, user));
      Dispatch(s, disconnecting, activeUser, Received(Encoding(f))) == Next(s, true, Some(Stored(game, user, ev)))
  {
    var f := Frame(MESSAGE, [Header("destination", TopicPrefix + game), Header("subscription", subId),
                             Header("message-id", msgId)], EventBodyText(ev, user));
    MessageHeadersEncodable(TopicPrefix + game, subId, msgId);
    DispatchEncoded(s, disconnecting, activeUser, f);
    assert HeaderValue(f.headers, "destination") == TopicPrefix + game;
    assert TopicPrefix + game != "";
    GameFromTopic(game);
    EventBodyRoundTrip(ev, user);
    UserOfEventBody(ev, user, activeUser);
  }

  lemma MessageHeadersEncodable(dest: string, subId: string, msgId: string)
    requires '\n' !in dest && '\n' !in subId && '\n' !in msgId
    ensures HeadersEncodable([Header("destination", dest), Header("subscription", subId), Header("message-id", msgId)])
  {
    assert ':' !in "destination" && '\n' !in "destination";
    assert ':' !in "subscription" && '\n' !in "subscription";
    assert ':' !in "message-id" && '\n' !in "message-id";
  }

  /** The store after `addEvent` received the event of `st`. */
  function WithReport(d: Db, st: Stored): (r: Db)
    requires AllSorted(d)
    ensures AllSorted(r)
  {
    var ev := st.ev;
    var row := Row(d, st.game);
    var data := Recorded(Lookup(d, st.game, st.user), ev.teamA, ev.teamB, ev.gameUpdates, ev.teamAUpdates,
                         ev.teamBUpdates, ev.time, ev.name, ev.description);
    d[st.game := row[st.user := data]]
  }

  /** The store after a pass that handed it `stored`, if anything. */
  function StoreAfter(d: Db, stored: Option<Stored>): Db
    requires AllSorted(d)
  {
    match stored
    case None => d
    case Some(st) => WithReport(d, st)
  }

  /** The SEND `report` writes for `ev` with receipt id `n`. */
  function ReportFrame(dest: string, ev: Event, user: string, file: string, n: nat): (f: Frame)
    ensures f.kind == SEND && f.body == EventBodyText(ev, user)
    ensures HeaderValue(f.headers, "destination") == dest && HeaderValue(f.headers, "filename") == file
    ensures HeaderValue(f.headers, "receipt") == NatToString(n)
  {
    SendFrame(dest, EventBodyText(ev, user), file, NatToString(n))
  }

  /** The SEND frames `report` writes for `events` on `dest`, the receipt
      ids counting up from `first`. */
  function ReportFrames(dest: string, events: seq<Event>, user: string, file: string, first: nat): (fs: seq<Frame>)
  {
    seq(|events|, k requires 0 <= k < |events| => ReportFrame(dest, events[k], user, file, first + k))
  }

  /** The shared variables after `count` SENDs whose receipt ids count
      up from `first`: the last one is awaited. */
  function AfterSends(s: Shared, first: nat, count: nat): (r: Shared)
    ensures count == 0 ==> r == s
    ensures count > 0 ==> !r.receiptArrived && r.expectedReceiptId == NatToString(first + count - 1)
    ensures r.loginResponseReceived == s.loginResponseReceived && r.loginError == s.loginError
    ensures r.running == s.running
  {
    if count == 0 then s else s.(receiptArrived := false, expectedReceiptId := NatToString(first + count - 1))
  }

  /** One more event adds one SEND at the end. */
  lemma ReportFramesSnoc(dest: string, events: seq<Event>, user: string, file: string, first: nat, i: nat)
    requires i < |events|
    ensures ReportFrames(dest, events[..i + 1], user, file, first)
         == ReportFrames(dest, events[..i], user, file, first)
            + [ReportFrame(dest, events[i], user, file, first + i)]
  {
    var longer := ReportFrames(dest, events[..i + 1], user, file, first);
    var shorter := ReportFrames(dest, events[..i], user, file, first);
    forall k | 0 <= k < i
      ensures longer[k] == shorter[k]
    {
      assert events[..i + 1][k] == events[..i][k];
    }
  }

  /** Every SEND of one report asks for its own receipt: no two carry the
      same receipt id. */
  lemma ReportReceiptsDistinct(dest: string, events: seq<Event>, user: string, file: string, first: nat, i: nat, j: nat)
    requires i < j < |events|
    ensures var fs := ReportFrames(dest, events, user, file, first);
      HeaderValue(fs[i].headers, "receipt") != HeaderValue(fs[j].headers, "receipt")
  {
    var fs := ReportFrames(dest, events, user, file, first);
    NatToStringInjective(first + i, first + j);
  }

  /** One UNSUBSCRIBE per entry of the game table, in key order, carrying
      the entry's subscription id. */
  function UnsubscribeFrames(table: seq<Entry>): (fs: seq<Frame>)
    ensures |fs| == |table|
    ensures forall i :: 0 <= i < |table| ==> fs[i] == UnsubscribeFrame(table[i].value)
    decreases |table|
  {
    if table == [] then []
    else UnsubscribeFrames(table[..|table| - 1]) + [UnsubscribeFrame(table[|table| - 1].value)]
  }

  /** Every game the client had joined gets its UNSUBSCRIBE at logout. */
  lemma UnsubscribesEveryGame(table: seq<Entry>, game: string)
    requires Sorted(table) && game in Keys(table)
    ensures exists i :: 0 <= i < |table| && UnsubscribeFrames(table)[i] == UnsubscribeFrame(Get(table, game).value)
  {
    var i :| 0 <= i < |table| && table[i].key == game;
    GetOfSorted(table, i);
    assert UnsubscribeFrames(table)[i] == UnsubscribeFrame(Get(table, game).value);
  }

  /** What `parseEventsFile` yields: the two team names and the events. */
  datatype EventsFile = EventsFile(teamA: string, teamB: string, events: seq<Event>)

  /** How a `report` command ends. */
  datatype ReportOutcome =
    | NotConnected
    | NoFileName
    | NoGameJoined
    | NotJoined(game: string)
    | Reported(game: string)

  /** The program: the variables `main` shares with the receiving thread,
      the `disconnecting` flag, the active user, whether a connection is
      open (`handler != nullptr`), the frames written to the connection so
      far, the protocol session and the game store. */
  class ClientState {
    var expectedReceiptId: string
    var receiptArrived: bool
    var loginResponseReceived: bool
    var loginError: string
    var running: bool
    var disconnecting: bool
    var activeUser: string
    var connected: bool
    var sent: seq<Frame>
    const protocol: Session
    const db: GameDB

    ghost predicate Valid()
      reads protocol, db
    {
      protocol.Valid() && db.Valid()
    }

    function SharedState(): Shared
      reads this
    {
      Shared(expectedReceiptId, receiptArrived, loginResponseReceived, loginError, running)
    }

    /** The variables as `main` declares them. */
    constructor ()
      ensures Valid() && fresh(protocol) && fresh(db)
      ensures SharedState() == Shared("", false, false, "", true)
      ensures !disconnecting && activeUser == "" && !connected && sent == []
      ensures protocol.nextReceiptId == 1 && protocol.nextSubscriptionId == 1
      ensures protocol.gameToSubscriptionId == [] && db.db == map[]
    {
      expectedReceiptId := "";
      receiptArrived := false;
      loginResponseReceived := false;
      loginError := "";
      running := true;
      disconnecting := false;
      activeUser := "";
      connected := false;
      sent := [];
      protocol := new Session();
      db := new GameDB();
    }

    /** One pass of `listenToServer` on `input`. `faulted` when the pass
        does not complete (an uncaught exception, which terminates the
        client, or a parser that never returns); otherwise the shared variables and the store are
        as `Dispatch` says and `listening` tells whether the loop goes on. */
    method Receive(input: Input) returns (listening: bool, faulted: bool)
      requires Valid()
      modifies this, db
      ensures Valid()
      ensures var o := Dispatch(old(SharedState()), disconnecting, activeUser, input);
        && (faulted <==> o.Faulted?)
        && (o.Next? ==> SharedState() == o.shared && listening == o.listening
                        && db.db == StoreAfter(old(db.db), o.stored))
        && (o.Faulted? ==> SharedState() == old(SharedState()) && db.db == old(db.db))
      ensures disconnecting == old(disconnecting) && activeUser == old(activeUser)
      ensures connected == old(connected) && sent == old(sent)
    {
      if input.EndOfStream? {
        if disconnecting {
          receiptArrived := true;
        }
        return false, false;
      }
      var decoded := Decode(input.raw + "\0");
      if decoded.Err? {
        return false, true;
      }
      var frame := decoded.value;
      if frame.kind == MESSAGE {
        listening, faulted := ReceiveMessage(frame);
      } else {
        listening := ReceiveControl(frame);
        faulted := false;
      }
    }

    /** The MESSAGE branch: a report for the store. */
    method ReceiveMessage(frame: Frame) returns (listening: bool, faulted: bool)
      requires Valid() && frame.kind == MESSAGE
      modifies db
      ensures Valid()
      ensures var o := Handle(SharedState(), activeUser, frame);
        && (faulted <==> o.Faulted?)
        && (o.Next? ==> listening == o.listening && o.shared == SharedState()
                        && db.db == StoreAfter(old(db.db), o.stored))
        && (o.Faulted? ==> db.db == old(db.db))
    {
      var dest := GetHeaderValue(frame, "destination");
      if dest == "" {
        return true, false;
      }
      var gameName := GameFromDestination(dest);
      var body := frame.body;
      var msgUser := GetUserFromBody(body, activeUser);
      var e := ParseEventBody(body);
      if e.None? {
        return false, true;
      }
      var ev := e.value;
      db.AddEvent(gameName, msgUser, ev.teamA, ev.teamB, ev.gameUpdates, ev.teamAUpdates, ev.teamBUpdates,
                  ev.time, ev.name, ev.description);
      return true, false;
    }

    /** The RECEIPT, CONNECTED and ERROR branches; other frames are
        ignored. */
    method ReceiveControl(frame: Frame) returns (listening: bool)
      requires frame.kind != MESSAGE
      modifies this
      ensures var o := Handle(old(SharedState()), old(activeUser), frame);
        o.Next? && SharedState() == o.shared && listening == o.listening
      ensures disconnecting == old(disconnecting) && activeUser == old(activeUser)
      ensures connected == old(connected) && sent == old(sent)
    {
      listening := true;
      if frame.kind == RECEIPT {
        var receiptId := GetHeaderValue(frame, "receipt-id");
        if receiptId == expectedReceiptId {
          receiptArrived := true;
        }
      } else if frame.kind == CONNECTED {
        loginResponseReceived := true;
        loginError := "";
      } else if frame.kind == ERROR {
        var errorBody := frame.body;
        var errorMsg := GetHeaderValue(frame, "message");
        loginResponseReceived := true;
        loginError := if errorMsg == "" then errorBody else errorMsg;
        running := false;
        listening := false;
      }
    }

    /** The `report` command: `arg` is the rest of the command line and
        `file` what `parseEventsFile` read from the file it names. */
    method Report(arg: string, file: EventsFile) returns (o: ReportOutcome)
      requires Valid()
      requires connected && Trimmed(arg) != [] && protocol.IsSubscribedTo(file.teamA + "_" + file.teamB) ==>
                 protocol.nextReceiptId + |file.events| <= MaxInt
      modifies this, protocol
      ensures Valid()
      ensures var jsonFile := Trimmed(arg);
        var game := file.teamA + "_" + file.teamB;
        && (!old(connected) ==> o == NotConnected)
        && (old(connected) && jsonFile == [] ==> o == NoFileName)
        && (old(connected) && jsonFile != [] && old(protocol.gameToSubscriptionId) == [] ==> o == NoGameJoined)
        && (old(connected) && jsonFile != [] && old(protocol.gameToSubscriptionId) != [] ==>
              o == (if old(protocol.IsSubscribedTo(game)) then Reported(game) else NotJoined(game)))
        && (o.Reported? ==> sent == old(sent) + ReportFrames(TopicPrefix + game, file.events, activeUser, jsonFile,
                                                             old(protocol.nextReceiptId))
                            && protocol.nextReceiptId == old(protocol.nextReceiptId) + |file.events|
                            && (file.events != [] ==>
                                  SharedState() == old(SharedState()).(receiptArrived := false,
                                    expectedReceiptId := NatToString(protocol.nextReceiptId - 1))))
      ensures !o.Reported? || file.events == [] ==> SharedState() == old(SharedState())
      ensures !o.Reported? ==> sent == old(sent) && protocol.nextReceiptId == old(protocol.nextReceiptId)
      ensures protocol.gameToSubscriptionId == old(protocol.gameToSubscriptionId)
      ensures protocol.nextSubscriptionId == old(protocol.nextSubscriptionId)
      ensures disconnecting == old(disconnecting) && activeUser == old(activeUser) && connected == old(connected)
    {
      if !connected {
        return NotConnected;
      }
      var jsonFile := Trim(arg);
      if jsonFile == [] {
        return NoFileName;
      }
      if protocol.gameToSubscriptionId == [] {
        return NoGameJoined;
      }
      var gameName := file.teamA + "_" + file.teamB;
      if !protocol.IsSubscribedTo(gameName) {
        return NotJoined(gameName);
      }
      SendReports(TopicPrefix + gameName, file.events, jsonFile);
      return Reported(gameName);
    }

    /** The loop of `report`: one SEND with a fresh receipt id per event,
        the receipt it waits for recorded as expected. */
    method SendReports(dest: string, events: seq<Event>, jsonFile: string)
      requires Valid() && protocol.nextReceiptId + |events| <= MaxInt
      modifies this, protocol
      ensures Valid()
      ensures sent == old(sent) + ReportFrames(dest, events, activeUser, jsonFile, old(protocol.nextReceiptId))
      ensures protocol.nextReceiptId == old(protocol.nextReceiptId) + |events|
      ensures SharedState() == AfterSends(old(SharedState()), old(protocol.nextReceiptId), |events|)
      ensures protocol.gameToSubscriptionId == old(protocol.gameToSubscriptionId)
      ensures protocol.nextSubscriptionId == old(protocol.nextSubscriptionId)
      ensures disconnecting == old(disconnecting) && activeUser == old(activeUser) && connected == old(connected)
    {
      ghost var first := protocol.nextReceiptId;
      for i := 0 to |events|
        invariant Valid()
        invariant protocol.nextReceiptId == first + i
        invariant sent == old(sent) + ReportFrames(dest, events[..i], activeUser, jsonFile, first)
        invariant SharedState() == AfterSends(old(SharedState()), first, i)
        invariant protocol.gameToSubscriptionId == old(protocol.gameToSubscriptionId)
        invariant protocol.nextSubscriptionId == old(protocol.nextSubscriptionId)
        invariant disconnecting == old(disconnecting) && activeUser == old(activeUser) && connected == old(connected)
      {
        SendReport(dest, events, i, jsonFile, old(sent), old(SharedState()), first);
      }
      assert events[..|events|] == events;
    }

    /** One pass of the `report` loop, for the `i`-th event; `base`,
        `start` and `first` are what the loop began with. */
    method SendReport(dest: string, events: seq<Event>, i: nat, jsonFile: string,
                      ghost base: seq<Frame>, ghost start: Shared, ghost first: nat)
      requires Valid() && i < |events| && protocol.nextReceiptId == first + i < MaxInt
      requires sent == base + ReportFrames(dest, events[..i], activeUser, jsonFile, first)
      requires SharedState() == AfterSends(start, first, i)
      modifies this, protocol
      ensures Valid()
      ensures sent == base + ReportFrames(dest, events[..i + 1], activeUser, jsonFile, first)
      ensures protocol.nextReceiptId == first + i + 1
      ensures SharedState() == AfterSends(start, first, i + 1)
      ensures protocol.gameToSubscriptionId == old(protocol.gameToSubscriptionId)
      ensures protocol.nextSubscriptionId == old(protocol.nextSubscriptionId)
      ensures disconnecting == old(disconnecting) && activeUser == old(activeUser) && connected == old(connected)
    {
      SendEvent(dest, events[i], jsonFile);
      ReportFramesSnoc(dest, events, activeUser, jsonFile, first, i);
    }

    /** The SEND of one event with a fresh receipt id, which becomes the
        expected one. */
    method SendEvent(dest: string, ev: Event, jsonFile: string)
      requires Valid() && protocol.nextReceiptId < MaxInt
      modifies this, protocol
      ensures Valid()
      ensures sent == old(sent) + [ReportFrame(dest, ev, activeUser, jsonFile, old(protocol.nextReceiptId))]
      ensures protocol.nextReceiptId == old(protocol.nextReceiptId) + 1
      ensures SharedState() == old(SharedState()).(receiptArrived := false,
                                 expectedReceiptId := NatToString(old(protocol.nextReceiptId)))
      ensures protocol.gameToSubscriptionId == old(protocol.gameToSubscriptionId)
      ensures protocol.nextSubscriptionId == old(protocol.nextSubscriptionId)
      ensures disconnecting == old(disconnecting) && activeUser == old(activeUser) && connected == old(connected)
    {
      var body := BuildEventBody(ev, activeUser);
      var thisReceiptId := protocol.GetNextReceiptId();
      receiptArrived := false;
      expectedReceiptId := thisReceiptId;
      sent := sent + [SendFrame(dest, body, jsonFile, thisReceiptId)];
    }

    /** The `logout` command up to the wait for the DISCONNECT receipt:
        `endsProgram` when there is no connection (the command loop
        ends); otherwise one UNSUBSCRIBE per joined game, the table
        cleared, and a DISCONNECT whose receipt becomes the expected one. */
    method Logout() returns (endsProgram: bool)
      requires Valid() && (connected ==> protocol.nextReceiptId < MaxInt)
      modifies this, protocol
      ensures Valid()
      ensures endsProgram <==> !old(connected)
      ensures endsProgram ==> SharedState() == old(SharedState()) && sent == old(sent)
                              && disconnecting == old(disconnecting)
                              && protocol.gameToSubscriptionId == old(protocol.gameToSubscriptionId)
                              && protocol.nextReceiptId == old(protocol.nextReceiptId)
      ensures !endsProgram ==>
        && disconnecting
        && sent == old(sent) + UnsubscribeFrames(old(protocol.gameToSubscriptionId))
                   + [DisconnectFrame(NatToString(old(protocol.nextReceiptId)))]
        && protocol.gameToSubscriptionId == []
        && protocol.nextReceiptId == old(protocol.nextReceiptId) + 1
        && SharedState() == old(SharedState()).(receiptArrived := false,
                              expectedReceiptId := NatToString(old(protocol.nextReceiptId)))
      ensures protocol.nextSubscriptionId == old(protocol.nextSubscriptionId)
      ensures activeUser == old(activeUser) && connected == old(connected)
    {
      if !connected {
        return true;
      }
      disconnecting := true;
      UnsubscribeAll();
      RequestDisconnect();
      return false;
    }

    /** The first half of `logout`: an UNSUBSCRIBE for every entry of the
        game table, then the table cleared. */
    method UnsubscribeAll()
      requires Valid()
      modifies this, protocol
      ensures Valid()
      ensures sent == old(sent) + UnsubscribeFrames(old(protocol.gameToSubscriptionId))
      ensures protocol.gameToSubscriptionId == []
      ensures protocol.nextReceiptId == old(protocol.nextReceiptId)
      ensures protocol.nextSubscriptionId == old(protocol.nextSubscriptionId)
      ensures SharedState() == old(SharedState())
      ensures disconnecting == old(disconnecting) && activeUser == old(activeUser) && connected == old(connected)
    {
      var subscribed := SubscribedGames();
      SendUnsubscribes(subscribed);
      protocol.ClearAllSubscriptions();
    }

    /** The second half of `logout`: a fresh receipt id made the expected
        one and a DISCONNECT asking for it. */
    method RequestDisconnect()
      requires Valid() && protocol.nextReceiptId < MaxInt
      modifies this, protocol
      ensures Valid()
      ensures sent == old(sent) + [DisconnectFrame(NatToString(old(protocol.nextReceiptId)))]
      ensures protocol.nextReceiptId == old(protocol.nextReceiptId) + 1
      ensures SharedState() == old(SharedState()).(receiptArrived := false,
                                 expectedReceiptId := NatToString(old(protocol.nextReceiptId)))
      ensures protocol.gameToSubscriptionId == old(protocol.gameToSubscriptionId)
      ensures protocol.nextSubscriptionId == old(protocol.nextSubscriptionId)
      ensures disconnecting == old(disconnecting) && activeUser == old(activeUser) && connected == old(connected)
    {
      receiptArrived := false;
      expectedReceiptId := protocol.GetNextReceiptId();
      sent := sent + [DisconnectFrame(expectedReceiptId)];
    }

    /** The names of the joined games, in table order. */
    method SubscribedGames() returns (subscribed: seq<string>)
      ensures |subscribed| == |protocol.gameToSubscriptionId|
      ensures forall k :: 0 <= k < |subscribed| ==> subscribed[k] == protocol.gameToSubscriptionId[k].key
    {
      var table := protocol.gameToSubscriptionId;
      subscribed := [];
      for i := 0 to |table|
        invariant |subscribed| == i
        invariant forall k :: 0 <= k < i ==> subscribed[k] == table[k].key
      {
        subscribed := subscribed + [table[i].key];
      }
    }

    /** The UNSUBSCRIBE loop of `logout` over the collected game names. */
    method SendUnsubscribes(subscribed: seq<string>)
      requires Valid()
      requires |subscribed| == |protocol.gameToSubscriptionId|
      requires forall k :: 0 <= k < |subscribed| ==> subscribed[k] == protocol.gameToSubscriptionId[k].key
      modifies this
      ensures sent == old(sent) + UnsubscribeFrames(protocol.gameToSubscriptionId)
      ensures SharedState() == old(SharedState())
      ensures disconnecting == old(disconnecting) && activeUser == old(activeUser) && connected == old(connected)
    {
      ghost var table := protocol.gameToSubscriptionId;
      for i := 0 to |subscribed|
        invariant sent == old(sent) + UnsubscribeFrames(table[..i])
        invariant SharedState() == old(SharedState())
        invariant disconnecting == old(disconnecting) && activeUser == old(activeUser) && connected == old(connected)
      {
        GetOfSorted(table, i);
        var subId := protocol.SubscriptionId(subscribed[i]);
        sent := sent + [UnsubscribeFrame(subId)];
        assert table[..i + 1][..i] == table[..i];
      }
      assert table[..|table|] == table;
    }

    /** The end of `logout`, once the DISCONNECT receipt has arrived: the
        connection is closed, the user logged out and `disconnecting`
        cleared, ready for the next `login`. */
    method FinishLogout()
      requires Valid() && receiptArrived
      modifies this, protocol
      ensures Valid()
      ensures !connected && activeUser == "" && !disconnecting
      ensures !protocol.loggedIn && protocol.currentUser == ""
      ensures SharedState() == old(SharedState()) && sent == old(sent)
      ensures protocol.gameToSubscriptionId == old(protocol.gameToSubscriptionId)
      ensures protocol.nextReceiptId == old(protocol.nextReceiptId)
      ensures protocol.nextSubscriptionId == old(protocol.nextSubscriptionId)
    {
      connected := false;
      activeUser := "";
      protocol.SetLoggedIn(false, "");
      disconnecting := false;
    }
  }
}
