# STOMP client message handling: a verified Dafny model

This project models the message-handling core of a small STOMP 1.2 football
game-update system. The model is written in Dafny and its properties are proved:

- The C++ client (`StompClient`) logs in and joins game channels. It reports
  game events read from a file as SEND frames, and records the MESSAGE frames
  the server publishes in a per-game, per-user summary store.
- The Java server keeps the subscription registry (`ConnectionsImpl`).

The code uses a simplified STOMP text form: there is no header escaping and no
`content-length`.

The modules follow the source files:

| module | file | content |
|---|---|---|
| `Wrappers` | `wrappers.dfy` | `Option` and `Result` |
| `Text` | `text.dfy` | the string library the code relies on: `find`, `getline` splitting, `std::to_string`, `std::stoi` with its 32-bit range, `isspace` |
| `OrderedMaps` | `ordered_map.dfy` | `std::map<std::string,std::string>` as a strictly sorted association list, so iteration is in key order as in C++ |
| `FrameTypes` | `frame_type.dfy` | the nine frame kinds and their name table |
| `Frames` | `stomp_frame.dfy` | the frame value, `toString`, the parsing constructor, `getHeaderValue` |
| `Protocol` | `protocol.dfy` | the frame builders, the two validators and the `StompProtocol` session class |
| `Events` | `events.dfy` | the event value and the event-body parser: a fold over the body's lines with a section state |
| `EventBodies` | `event_body.dfy` | the body writer `buildEventBody`, `getUserFromBody`, and the write-then-parse round trip |
| `GameDb` | `game_db.dfy` | the summary store: `addEvent` and the rendering of `writeSummaryToFile` |
| `Client` | `stomp_client.dfy` | `trim`, `getGameFromDestination`, one step of the receiver loop, and the report and logout commands |
| `Connections` | `connections.dfy` | the server registry: two mirrored maps, sending, login validation |

The main results:

- **Frame codec.** Decoding an encoded frame gives back the frame
  (`Frames.RoundTrip`), provided header keys hold no colon or newline and
  values hold no newline.
- **Failure cases.** The decoder's failures are modelled as error results. An empty text leaves
  the type unset; any other text without a newline never leaves the header
  loop, because the cursor wraps from `npos + 1` back to 0. An unknown name
  throws. A last header line without a newline makes the C++
  cursor wrap to 0, so that loop never ends. A lemma states when each one
  occurs.
- **Event bodies.** Parsing `buildEventBody(ev, user)` gives back `ev`
  (`EventBodies.EventBodyRoundTrip`), and `getUserFromBody` of the same body
  gives back `user`.
- **Receipt ids.** Both id counters start at 1, and the ids they hand out never
  repeat. Each SEND of a report carries a fresh `receipt` id, which becomes the
  expected receipt.
- **Receiver.** A RECEIPT frame sets `receiptArrived` exactly when its id
  matches the expected receipt.
- **Logout.** Logout sends one UNSUBSCRIBE per joined game, then one DISCONNECT
  with a fresh receipt.
- **Game store.** `addEvent` changes only the one (game, user) summary it
  names. The summary lists the stored events as a permutation sorted by time.
- **Server registry.** The two maps mirror each other. No channel is ever left
  with an empty subscriber map. `subscribe`, `unsubscribe` and `disconnect`
  preserve both facts.

Two points about the code that the model follows:

- `toString` emits no NUL: `StompFrame.cpp:73` is commented out, and
  `sendFrame` appends the terminator.
- The session reads the subscription table directly, as the call sites in
  `StompClient.cpp` do.

## Model

| member | source | states |
|---|---|---|
| FrameTypes.ToString | client/include/FrameType.h:18-31 | every kind has a non-empty name without newline or colon |
| FrameTypes.FromString | client/include/FrameType.h:33-44 | whenever a kind is returned, its name is exactly the input |
| FrameTypes.FromStringOfToString | client/include/FrameType.h:18-42 | every kind is read back from its own name |
| FrameTypes.FromStringRejects | client/include/FrameType.h:33-44 | the lookup fails (throws) exactly on texts that are none of the nine names |
| FrameTypes.ToStringInjective | client/include/FrameType.h:20-28 | the nine names are pairwise distinct |
| Frames.HeaderLinesSnoc | client/src/StompFrame.cpp:62-64 | the header lines of one more header are the earlier lines plus `key:value\n` |
| Frames.Encode | client/src/StompFrame.cpp:55-76 | the text is the type name, a newline, one `key:value` line per header in order, a blank line, the body and a newline, with no NUL |
| Frames.HeaderOfLineSplit | client/src/StompFrame.cpp:36-41 | a line without a colon gives no header; otherwise the key is the text before the first colon (so it holds none) and the value is all the rest |
| Frames.ScanHeaders | client/src/StompFrame.cpp:24-42 | the cursor loop reads exactly the header section of the text after the type line: the headers up to the first empty line and the position after it, or the unterminated-line error |
| Frames.SectionBlankLine | client/src/StompFrame.cpp:31-33 | an empty line ends the header section and the text after it is the rest |
| Frames.SectionUnterminated | client/src/StompFrame.cpp:25-28 | a last line with no newline makes the section fail (the cursor wraps to 0 and the loop does not end) |
| Frames.Decode | client/src/StompFrame.cpp:6-53 | the parsing constructor computes the decoding function: strip one NUL, read the type line, the headers and the body |
| Frames.ReadBody | client/src/StompFrame.cpp:44-52 | the body is the rest of the text with at most one trailing newline removed, or empty if nothing is left |
| Frames.RoundTrip | client/src/StompFrame.cpp:6-76 | decoding the encoded text of an encodable frame, with or without the NUL, gives back its kind, headers in order and body |
| Frames.DecodeStripsOneNul | client/src/StompFrame.cpp:9-11 | only one trailing NUL is removed before parsing |
| Frames.DecodeWithoutNewline | client/src/StompFrame.cpp:16-21 | a text with no newline is the missing-type-line error: the C++ leaves the type unset for the empty text and never leaves the header loop for any other |
| Frames.DecodeUnknownType | client/src/StompFrame.cpp:16-19 | a first line that is not a frame name is rejected with that name |
| Frames.DecodeUnterminatedHeader | client/src/StompFrame.cpp:24-28 | a type line followed by a header line without newline is the non-terminating case |
| Frames.DecodeNamedUnterminated | client/src/StompFrame.cpp:16-28 | the same for any first line that names a kind |
| Frames.HeaderValueFirst | client/src/StompFrame.cpp:90-97 | the first header with the key decides the value, whatever later headers hold |
| Frames.HeaderValueAbsent | client/src/StompFrame.cpp:90-97 | with no header of that key the value is empty |
| Frames.GetHeaderValue | client/src/StompFrame.cpp:90-97 | the linear scan returns the first matching header's value, or the empty string |
| Protocol.ConnectFrame | client/src/StompProtocol.cpp:10-19 | CONNECT, empty body, exactly the headers accept-version 1.2, host, login and passcode in that order |
| Protocol.ConnectFrameFields | client/src/StompProtocol.cpp:13-16 | each of the four CONNECT headers reads back its argument |
| Protocol.SendFrame | client/src/StompProtocol.cpp:21-35 | SEND with the body unchanged; the headers are exactly destination, then filename only when it is non-empty, then receipt only when it is non-empty, in that order; each reads back its argument |
| Protocol.SendHeaderValues | client/src/StompProtocol.cpp:23-32 | in every optional layout the three headers read back their arguments |
| Protocol.SubscribeFrame | client/src/StompProtocol.cpp:41-45 | SUBSCRIBE, empty body, headers destination and id in that order |
| Protocol.UnsubscribeFrame | client/src/StompProtocol.cpp:48-54 | UNSUBSCRIBE with the single header id and an empty body |
| Protocol.DisconnectFrame | client/src/StompProtocol.cpp:56-62 | DISCONNECT with the single header receipt and an empty body |
| Protocol.ConnectFrameRoundTrip | client/src/StompProtocol.cpp:10-19 | a CONNECT frame built from single-line arguments decodes back to itself |
| Protocol.SendFrameRoundTrip | client/src/StompProtocol.cpp:21-35 | a SEND frame with single-line destination, filename and receipt decodes back to itself, whatever its body |
| Protocol.SubscribeFrameRoundTrip | client/src/StompProtocol.cpp:37-46 | a SUBSCRIBE frame decodes back to itself |
| Protocol.SingleHeaderFramesRoundTrip | client/src/StompProtocol.cpp:48-62 | UNSUBSCRIBE and DISCONNECT frames decode back to themselves |
| Protocol.ValidConnectResponse | client/src/StompProtocol.cpp:123-129 | true exactly for CONNECTED and ERROR |
| Protocol.ValidMessageFrame | client/src/StompProtocol.cpp:131-142 | true exactly for a MESSAGE whose destination, subscription and message-id are all non-empty |
| Protocol.MessageNeedsHeader | client/src/StompProtocol.cpp:137-141 | a MESSAGE missing any of the three headers is rejected |
| Protocol.BuiltFramesAreNotResponses | client/src/StompProtocol.cpp:123-142 | no frame the client builds passes either validator |
| Protocol.Session.constructor | client/src/StompProtocol.cpp:5-6 | both counters start at 1, the table is empty, nobody is logged in |
| Protocol.Session.GetNextReceiptId | client/src/StompProtocol.cpp:113-116 | returns the current counter in decimal, then increments it; the id differs from every id issued before; nothing else changes |
| Protocol.Session.GetNextSubscriptionId | client/src/StompProtocol.cpp:118-121 | the same for the subscription counter |
| Protocol.Session.BuildSubscribeFrame | client/src/StompProtocol.cpp:37-46 | the frame carries the subscription id before the increment, which is fresh; the counter advances by exactly one |
| Protocol.Session.SetLoggedIn | client/src/StompProtocol.cpp:64-72 | sets the flag; the user is the argument when logging in and empty when logging out |
| Protocol.Session.SubscriptionId | client/src/StompProtocol.cpp:94-101 | the stored id of a joined game, or empty for any other |
| Protocol.Session.IsSubscribedTo | client/src/StompProtocol.cpp:103-106 | true exactly when the game is in the table |
| Protocol.Session.AddSubscription | client/src/StompProtocol.cpp:84-87 | afterwards the game is joined with that id; every other game and the counters are unchanged |
| Protocol.Session.RemoveSubscription | client/src/StompProtocol.cpp:89-92 | afterwards the game is not joined and its id is empty; every other game and the counters are unchanged |
| Protocol.Session.ClearAllSubscriptions | client/src/StompProtocol.cpp:108-111 | the table is empty and no game is joined; the counters and login state are unchanged |
| Events.Update | client/src/event.cpp:127-129 | storing a key writes into the map of the current section (overwriting a repeated key) and leaves the other maps and fields alone |
| Events.ParseEmpty | client/src/event.cpp:64-66 | an empty body gives the defaults: empty names and description, time 0, empty maps |
| Events.FoldAppend | client/src/event.cpp:74-134 | reading two runs of lines is reading the first and then the second from that state; an exception stops the loop |
| Events.StepFieldLine | client/src/event.cpp:97-103 | a `time:` line sets the time from the integer after it (failing exactly when that text is not an integer) and resets the section, in whatever section it appears |
| Events.StepTeamALine | client/src/event.cpp:79-84 | a `team a:` line sets the team name to the rest of the line less one leading space and resets the section |
| Events.StepUpdateLine | client/src/event.cpp:119-131 | in an update section the key is the text before the first colon and the value the rest less one leading space; a line without a colon is ignored |
| Events.StepDescriptionLine | client/src/event.cpp:75-76 | in the description section non-empty lines are joined with newlines; empty lines (after a carriage return is stripped) are skipped |
| Events.StepDescriptionHeader | client/src/event.cpp:109 | `description:` switches to the description section and restarts the description |
| Events.StepIgnoredLine | client/src/event.cpp:133 | outside every section, a line that is neither a field line nor a header changes nothing |
| Events.ReadLine | client/src/event.cpp:74-134 | one pass of the `getline` loop body computes the parser step |
| Events.ParseEventBody | client/src/event.cpp:64-135 | the constructor's loop over the body's lines computes the fold of the parser from the default event |
| EventBodies.BuildEventBody | client/src/StompClient.cpp:64-92 | the writer produces the user, team, name and time lines, the three update sections in key order and the description, each line ending in a newline |
| EventBodies.UserFromFirstUserLine | client/src/StompClient.cpp:51-58 | the first line starting with `user:` decides the user: the rest of that line less a trailing carriage return and one leading space |
| EventBodies.UserFallback | client/src/StompClient.cpp:60 | with no such line the active user is returned |
| EventBodies.GetUserFromBody | client/src/StompClient.cpp:47-61 | the line loop computes that user |
| EventBodies.UserOfEventBody | client/src/StompClient.cpp:47-67 | the user read back from a written body is the user that was written |
| EventBodies.LinesOfEventBody | client/src/StompClient.cpp:64-92 | the written body splits back into exactly the lines that were written before the description, followed by the lines of the description |
| EventBodies.FoldDescriptionLines | client/src/event.cpp:112-116 | inside the description section, reading the lines of a text joins that text onto the description read so far with a newline |
| EventBodies.FoldEntries | client/src/event.cpp:119-130 | reading the written lines of an update map inside its section stores every entry of that map |
| EventBodies.EventBodyRoundTrip | client/src/event.cpp:64-135 | parsing a written body gives back the event, for keys without colons, single-line texts that collide with no field or header line, and a description that is empty or whose lines are all non-empty and collide with no field or header line |
| GameDb.Lookup | client/src/GameDB.cpp:17 | the stored summary, or the fresh empty one `db[game][user]` creates |
| GameDb.Recorded | client/src/GameDB.cpp:17-31 | the statistics stay sorted association lists after one event |
| GameDb.RecordedAppendsOne | client/src/GameDB.cpp:31 | exactly one report line `{time, name, description}` is appended and the earlier ones keep their order |
| GameDb.RecordedKeepsTeams | client/src/GameDB.cpp:20-23 | the team names are taken only while both are empty |
| GameDb.TeamsSetOnce | client/src/GameDB.cpp:20-23 | a later event cannot replace team names an earlier one supplied |
| GameDb.RecordedStats | client/src/GameDB.cpp:26-28 | each key named in an update takes the new value; every other key keeps its previous value |
| GameDb.StoreAll | client/src/GameDB.cpp:26-28 | the update loop over one map stores all its entries |
| GameDb.SortByTime | client/src/GameDB.cpp:74-77 | the sorted copy is ordered by non-decreasing time and is a permutation of the stored events |
| GameDb.SummaryListsEventsByTime | client/src/GameDB.cpp:50-82 | the summary lists every stored event exactly once, by non-decreasing time, after the three statistics blocks |
| GameDb.AppendEvents | client/src/GameDB.cpp:79-82 | the output loop writes `time - name:`, the description and a blank line per event in order |
| GameDb.Record | client/src/GameDB.cpp:17-31 | the in-place update computes the recorded summary |
| GameDb.LookupAfterStore | client/src/GameDB.cpp:17 | storing one (game, user) summary changes no other (game, user) entry |
| GameDb.GameDB.AddEvent | client/src/GameDB.cpp:5-32 | the store afterwards holds the recorded summary for that game and user, and every other entry is unchanged |
| GameDb.GameDB.WriteSummaryToFile | client/src/GameDB.cpp:34-85 | succeeds exactly when the game is stored, the user is stored under it and the file opens; it then renders that summary; the store is not changed |
| OrderedMaps.Put | client/src/StompProtocol.cpp:86 | `m[k] = v` on a sorted map: the key maps to the new value, every other key keeps its value, the list stays sorted |
| OrderedMaps.Remove | client/src/StompProtocol.cpp:91 | `erase(k)`: the key is gone, every other key keeps its value |
| OrderedMaps.GetPutAll | client/src/GameDB.cpp:26-28 | after storing every entry of an update, each key has the update's value if it has one and its old value otherwise |
| OrderedMaps.AppendEntries | client/src/GameDB.cpp:54-56 | the loop writes one `key: value` line per entry in key order |
| Text.NatToStringInjective | client/src/StompProtocol.cpp:115 | distinct counter values give distinct decimal ids |
| Text.StoIOfIntToString | client/src/event.cpp:100 | `std::stoi` reads back a written 32-bit time |
| Client.TrimShape | client/src/StompClient.cpp:21-27 | the result is the input less leading and trailing whitespace only; it is empty or starts and ends with a non-space, and it is empty only when the input was all whitespace |
| Client.TrimIdempotent | client/src/StompClient.cpp:21-27 | trimming twice is trimming once |
| Client.Trim | client/src/StompClient.cpp:21-27 | the erase and pop loops compute the trimmed text |
| Client.EraseLeadingSpaces | client/src/StompClient.cpp:22-23 | the first loop removes exactly the leading whitespace |
| Client.PopTrailingSpaces | client/src/StompClient.cpp:24-25 | the second loop removes exactly the trailing whitespace |
| Client.GameFromDestination | client/src/StompClient.cpp:30-36 | a `/topic/` destination gives the text after the prefix; any other is returned unchanged |
| Client.GameFromTopic | client/src/StompClient.cpp:30-36 | `/topic/` followed by a game gives back the game |
| Client.Handle | client/src/StompClient.cpp:126-200 | one received frame never changes the expected receipt; only a MESSAGE stores an event; only an ERROR ends the loop, with running false; the step fails exactly on a MESSAGE with a destination whose body the parser rejects; a MESSAGE with an empty destination, and any frame kind other than MESSAGE, RECEIPT, CONNECTED and ERROR, is skipped with the state unchanged and nothing stored |
| Client.Dispatch | client/src/StompClient.cpp:108-124 | the end of the stream always ends the loop and stores nothing |
| Client.DispatchEncoded | client/src/StompClient.cpp:110-124 | a received frame text is handled as the frame it encodes |
| Client.EndOfStreamEndsLoop | client/src/StompClient.cpp:110-121 | on end of stream the receipt counts as arrived exactly when the client is disconnecting, and the loop ends |
| Client.ReceiptMatchesExpected | client/src/StompClient.cpp:151-164 | a RECEIPT sets receipt-arrived exactly when its receipt-id equals the expected id; otherwise the state is unchanged |
| Client.EarlierReceiptIgnored | client/src/StompClient.cpp:151-164 | a receipt for an earlier SEND cannot release the wait for the current one |
| Client.LoginResponses | client/src/StompClient.cpp:166-200 | CONNECTED marks the login answered with no error; ERROR marks it answered with the message header, or the body when that is empty, sets running false and ends the loop |
| Client.MessageDeliversReport | client/src/StompClient.cpp:126-150 | a MESSAGE carrying a written event body stores that event under the game of its destination and the user of its body |
| Client.MessageHeadersEncodable | client/src/StompClient.cpp:127 | single-line MESSAGE headers are read back as written |
| Client.WithReport | client/src/StompClient.cpp:140-149 | recording a delivered event keeps the store's statistics sorted |
| Client.ReportFrame | client/src/StompClient.cpp:385-395 | a report SEND carries the written event body, the topic destination, the file name and the receipt id |
| Client.AfterSends | client/src/StompClient.cpp:388-393 | after a report of n events the expected receipt is the last id and receipt-arrived is false; nothing is changed when there are no events |
| Client.ReportFramesSnoc | client/src/StompClient.cpp:384-403 | one more loop pass adds exactly the next event's SEND |
| Client.ReportReceiptsDistinct | client/src/StompClient.cpp:388 | the SEND frames of one report carry pairwise distinct receipt ids |
| Client.UnsubscribeFrames | client/src/StompClient.cpp:437-441 | one UNSUBSCRIBE per table entry, in table order, carrying that entry's id |
| Client.UnsubscribesEveryGame | client/src/StompClient.cpp:432-441 | every joined game's subscription id appears in one UNSUBSCRIBE |
| Client.ClientState.constructor | client/src/StompClient.cpp:204-225 | the shared receiver state starts with no expected receipt, nothing arrived, no login answer, running |
| Client.ClientState.Receive | client/src/StompClient.cpp:108-201 | one loop pass applies the receiver step to the shared state and the store, or reports `faulted` with everything unchanged where the C++ throws or never returns (which ends or hangs the client; see below) |
| Client.ClientState.ReceiveMessage | client/src/StompClient.cpp:126-150 | a MESSAGE is applied to the store as the receiver step says |
| Client.ClientState.ReceiveControl | client/src/StompClient.cpp:151-200 | a RECEIPT, CONNECTED or ERROR frame is applied to the shared state as the receiver step says |
| Client.ClientState.Report | client/src/StompClient.cpp:357-403 | not connected, an empty file name, an empty table or an unjoined game sends nothing; otherwise one SEND per event to `/topic/teamA_teamB` with consecutive fresh receipts, the last being expected |
| Client.ClientState.SendReports | client/src/StompClient.cpp:384-403 | the loop sends exactly the report frames with consecutive receipt ids from the counter and advances it by the number of events |
| Client.ClientState.SendReport | client/src/StompClient.cpp:384-403 | one loop pass keeps that invariant for one more event |
| Client.ClientState.SendEvent | client/src/StompClient.cpp:385-396 | one SEND with the next receipt id, which becomes the expected id with receipt-arrived false |
| Client.ClientState.Logout | client/src/StompClient.cpp:425-453 | not connected ends the program and sends nothing; otherwise one UNSUBSCRIBE per joined game, the table cleared, then one DISCONNECT whose receipt is the new expected id |
| Client.ClientState.UnsubscribeAll | client/src/StompClient.cpp:432-442 | sends the unsubscribe frames of the old table and clears it |
| Client.ClientState.RequestDisconnect | client/src/StompClient.cpp:444-453 | takes the next receipt id as the expected one, resets receipt-arrived and sends one DISCONNECT carrying it |
| Client.ClientState.SubscribedGames | client/src/StompClient.cpp:432-435 | collects the joined games in table order |
| Client.ClientState.SendUnsubscribes | client/src/StompClient.cpp:437-441 | sends one UNSUBSCRIBE with each listed game's stored id |
| Client.ClientState.FinishLogout | client/src/StompClient.cpp:472-476 | after the receipt: disconnected, the active user and session user cleared, no longer disconnecting |
| Connections.SubscribeKeepsRegistry | server/src/main/java/bgu/spl/net/srv/ConnectionsImpl.java:68-74 | subscribing keeps the two maps mirrored and leaves no empty channel |
| Connections.UnsubscribeKeepsRegistry | server/src/main/java/bgu/spl/net/srv/ConnectionsImpl.java:76-89 | unsubscribing keeps the maps mirrored, leaves no empty channel and removes the pair on both sides |
| Connections.UnsubscribeOnlyThatPair | server/src/main/java/bgu/spl/net/srv/ConnectionsImpl.java:82-88 | only that connection's entry for that destination leaves the channel map |
| Connections.LeaveOneMore | server/src/main/java/bgu/spl/net/srv/ConnectionsImpl.java:55-63 | one more iteration of the disconnect loop leaves one more channel |
| Connections.DisconnectKeepsRegistry | server/src/main/java/bgu/spl/net/srv/ConnectionsImpl.java:48-64 | leaving all of a connection's channels keeps the registry mirrored, removes every trace of it and keeps every other subscription |
| Connections.LoginResult | server/src/main/java/bgu/spl/net/srv/ConnectionsImpl.java:127-139 | 1 exactly for an unknown login, 0 exactly for a known login with the same password, -1 exactly for a wrong password |
| Connections.UsersAfter | server/src/main/java/bgu/spl/net/srv/ConnectionsImpl.java:128-131 | the login is known afterwards, a known login leaves the table unchanged, and no user is lost |
| Connections.LoginAgain | server/src/main/java/bgu/spl/net/srv/ConnectionsImpl.java:127-139 | after a first login the same password is accepted, another is refused, and a refusal changes nothing |
| Connections.Deliveries | server/src/main/java/bgu/spl/net/srv/ConnectionsImpl.java:41-44 | one delivery per listed connection that has a handler |
| Connections.ListKeys | server/src/main/java/bgu/spl/net/srv/ConnectionsImpl.java:41 | the key set is enumerated, each subscriber exactly once |
| Connections.ConnectionsImpl.constructor | server/src/main/java/bgu/spl/net/srv/ConnectionsImpl.java:10-18 | all four maps start empty |
| Connections.ConnectionsImpl.Connect | server/src/main/java/bgu/spl/net/srv/ConnectionsImpl.java:20-23 | registers the handler and gives the connection an empty subscription map unless it has one |
| Connections.ConnectionsImpl.SendTo | server/src/main/java/bgu/spl/net/srv/ConnectionsImpl.java:26-33 | fails exactly when no handler is registered; otherwise the message goes to that handler |
| Connections.ConnectionsImpl.SendToChannel | server/src/main/java/bgu/spl/net/srv/ConnectionsImpl.java:36-45 | nothing for an unknown channel; otherwise one send to each subscriber key, in some enumeration order |
| Connections.ConnectionsImpl.Subscribe | server/src/main/java/bgu/spl/net/srv/ConnectionsImpl.java:68-74 | records the pair on both sides; afterwards the subscription id is the given one and the channel maps the connection to it; the registry stays valid |
| Connections.ConnectionsImpl.Unsubscribe | server/src/main/java/bgu/spl/net/srv/ConnectionsImpl.java:76-89 | removes the pair on both sides and drops an emptied channel; the registry stays valid |
| Connections.ConnectionsImpl.Disconnect | server/src/main/java/bgu/spl/net/srv/ConnectionsImpl.java:48-64 | nothing without a subscription map; otherwise the map is dropped and the connection leaves every channel; handlers are untouched |
| Connections.ConnectionsImpl.ValidateUser | server/src/main/java/bgu/spl/net/srv/ConnectionsImpl.java:127-139 | returns the login result and stores an unknown login with its password |
| Connections.ConnectionsImpl.Subscribers | server/src/main/java/bgu/spl/net/srv/ConnectionsImpl.java:95-98 | the channel's subscriber map, empty for an unknown channel, and it agrees with the per-connection map |
| Connections.ConnectionsImpl.SubscriptionIdOf | server/src/main/java/bgu/spl/net/srv/ConnectionsImpl.java:100-105 | the connection's id for the destination, or none, agreeing with the channel map |
| Connections.ConnectionsImpl.DestinationBySubId | server/src/main/java/bgu/spl/net/srv/ConnectionsImpl.java:107-117 | some destination of the connection whose id equals the argument, or none exactly when there is no such destination |

## Left out

- Threads, mutexes, condition variables and atomics
  (`client/src/StompClient.cpp`) are left out. The receiver is modelled as one
  step per received frame. Report and logout are sequential methods. The waits
  for receipts (lines 399-402, 456-459) and the thread start, join and detach
  are left out.
- Client.ClientState.Report: the wait after each SEND is not modelled.
  Consecutive SENDs are therefore taken without the RECEIPT in between, and
  receipt-arrived is false after the report.
- Sockets and the `ConnectionHandler` class are not part of this model.
  Received text is an `Input` parameter, and sent frames are recorded in a
  `sent` sequence.
- Standard input command parsing is left out. This covers the `login`, `join`
  and `exit` commands and the port cast. The report command takes its argument
  text and the parsed file as parameters.
- `parseEventsFile` (`client/src/event.cpp:137-184`) is built on a JSON
  library that is not part of this model. The report command receives its
  result as an `EventsFile` parameter.
- Console and error output is left out. File output in `writeSummaryToFile` is
  left out: the method returns the text it would write, and whether the file
  opens is a parameter.
- Protocol.Session.GetNextReceiptId: the C++ counters are 32-bit `int`s.
  The model's counters are `int` fields that `Session.Valid()` keeps within
  `1..MaxInt` (2^31 - 1). Signed overflow is not modelled: it is excluded by a
  precondition. `GetNextReceiptId`, `GetNextSubscriptionId` and
  `BuildSubscribeFrame` require their counter to be below `MaxInt`. The
  callers require the same room only on the paths that take ids:
  `Client.ClientState.Report` when it sends, for every event of the file, and
  `Client.ClientState.Logout` when connected.
- Frames.Decode: two of its failures are really non-termination and
  undefined behaviour. The empty text leaves the type field unset. Any other
  text without a newline, and any text whose last header line has no
  newline, never leaves the header loop: the cursor wraps from `npos + 1`
  back to 0 (`StompFrame.cpp:24-28`). The model reports these cases as error
  results. The receiver treats any failed decoding, and any exception from
  the body parser, as a step that changes nothing (`Faulted`).
- Client.ClientState.Receive: `faulted` stands for what the C++ does
  instead of returning. `listenToServer` has no `try`/`catch`, so an
  exception from the frame constructor or from `std::stoi` in the body
  parser leaves the listener thread and calls `std::terminate`, which ends
  the whole client. An unterminated header line hangs the listener for
  ever. The model does not describe the process after such a step: it
  keeps the state unchanged, and nothing stops `Report` or `Logout` from
  being called afterwards.
- A frame whose body holds a NUL does not survive the transport, since
  `getFrameAscii` ends a frame at the first NUL. The transport is not part of
  this model, so the codec round trip places no condition on the body.
- GameDb.SortByTime: `std::sort` is not stable, and the model fixes one order
  for events with equal times. The proved property, sorted and a permutation,
  is what the C++ guarantees.
- EventBodies.EventBodyRoundTrip: descriptions with an empty line are not
  covered: the parser skips empty lines, so such a description is read back
  without them. Neither are description lines that end in a carriage return
  or look like a field line or section header, which the parser strips or
  reads as something else.
- EventBodies.UserOfEventBody: requires a user name without a newline, as
  does `getUserFromBody`. A user name ending in a carriage return loses it on
  reading.
- `getHandlerByID` (`ConnectionsImpl.java:119-121`) is a plain map read and is
  not modelled.
- Connection handlers and messages are type parameters of unknown content.
  Only which handler receives which message is recorded.
- Connections.ConnectionsImpl.DestinationBySubId: `ConcurrentHashMap`
  iteration order is not modelled, so the method promises only some matching
  destination. `SendToChannel` returns the order it used as a ghost value.
- Thread safety of the concurrent maps is not modelled; the maps are ordinary
  sequential maps.
- The server's STOMP protocol, encoder and server classes are not part of this
  model: they are stubs or do not compile.
- `ConnectionsImpl` defines only a three-argument `subscribe`, so it does not
  implement the interface's `subscribe(int, String)` (`Connections.java:16`)
  and does not compile as written. The model follows the three-argument
  method of `ConnectionsImpl.java:68-74`.
- The call sites in `StompClient.cpp` that do not compile are modelled through
  the API that `StompProtocol.cpp` defines. These are line 329's two-argument
  `buildSubscribeFrame` and the direct reads of the private table at lines 369
  and 433. The direct reads become reads of the session's table field.
