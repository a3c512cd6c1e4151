# Ae2D multiplayer sync layer and engine state machines, in Dafny

Ae2D is a small 2D game engine with a game server. This project models three parts of it.

- **Wire codecs.** These are:
  - the server's reading of client packets (`ServerMessage::fromRaw`) and its encoding of announcements (`ClientMessage::toRaw`);
  - the 9-byte bit-packed player-state record (`PlayerState::parse`/`raw`);
  - the client's decoder of the reliable stream (`Network::parse`);
  - the client's outbound packet builder (`sendMessage` of the script bindings).
- **The server.** This covers:
  - the slot table and its free-slot search;
  - the intake of state datagrams, which binds an address on the first packet;
  - the per-tick state packets, which never include the receiver's own record;
  - the queue of announcements and the slot reset on a departure;
  - request dispatching and the chat commands `kick`, `voting` and `vote`;
  - the quote-aware command tokenizer and the role-uniqueness rule.

  It also covers polls (`Voting`), reading a client's stream (`Client`), permissions and slot count (`Config`), and accounts, checkpoints and the save date (`State`).
- **Engine state machines that are not graphics.** These are:
  - the `^(...)` markup of UI texts;
  - frame-animation cursors;
  - skeleton bone paths, timelines and animation switching;
  - the entity and trigger registries of a world;
  - the script variable store of worlds and entities.

There is one Dafny module per source file. Each file keeps its own message types, because the files come from different revisions of the protocol.

| module | source |
|---|---|
| `Transmission` | src/server/Transmission.rs |
| `Client` | src/server/Client.rs |
| `Config` | src/server/Config.rs |
| `Voting` | src/server/Voting.rs |
| `State` | src/server/State.rs |
| `Server` | src/server/Server.rs |
| `ClientNet` | src/ae2d/Network.rs |
| `Bind` | the `network` table of src/ae2d/bind.rs |
| `UI` | src/ae2d/UI.rs |
| `Skeleton` | src/ae2d/Skeleton.rs |
| `FrameAnimation` | src/ae2d/FrameAnimation.rs |
| `Sprite` | src/ae2d/Sprite.rs |
| `Grid` | the sprite-sheet walk shared by the two `calculateFrames` |
| `GameWorld` | src/ae2d/World.rs |
| `EnvellWorld` | src/ae2d/envell/World.rs |
| `EnvellEntity` | src/ae2d/envell/Entity.rs |
| `Programmable` | the variable store type, with the get/set rules of the two envell files |
| `Common` | bytes, UTF-8 text, little-endian fields, decimal numbers, splitting |

Conventions:
- Objects whose fields the source updates become classes.
- Loops become methods with invariants. Each method is proved against a function that states the whole result.
- `HashMap` iteration order becomes an explicit `order` sequence wherever the result depends on it.
- Server-side strings are UTF-8 bytes (`Text`), so the Russian announcement texts are exact. Engine-side strings are `string`.
- Elapsed time, delta time and the epoch clock are parameters.
- Socket outcomes become input datatypes, and writes become output sequences.
- A call that panics in the source becomes a precondition. Examples are `unwrap` on a missing slot, an out-of-range index and a failed number parse.

## Model

| member | source | states |
|---|---|---|
| Transmission.FromRaw | src/server/Transmission.rs:12-24 | The first byte alone picks the variant: 1 gives Register, 2 gives Chat (each with the remaining bytes as text), 3 gives Disconnected and any other byte gives Invalid. An empty buffer is excluded, because `remove(0)` panics on it. |
| Transmission.ToRaw | src/server/Transmission.rs:37-58 | Login is `[1, id] ++ name ++ [0]`, of length \|name\|+3. Disconnected is exactly `[2, id]`. Chat is `[3] ++ text ++ [0]`. |
| Transmission.ToRawInjective | src/server/Transmission.rs:37-58 | Two announcements with the same encoding are equal, so the first byte and the body identify the message. |
| Client.Default | src/server/Client.rs:17-26 | No stream, no address and a 9-byte all-zero state. |
| Client.Connect | src/server/Client.rs:27-39 | A stream, no address, the given account and a zeroed state. |
| Client.SendTCP | src/server/Client.rs:41-45 | Something is written iff the slot has a stream, and what is written is `ToRaw` of the message. |
| Client.ReceiveTCP | src/server/Client.rs:47-73 | No stream or would-block gives nothing. A zero-byte read or a connection reset gives Disconnected and keeps the stream. Any other error drops the stream and gives Disconnected. A non-empty read gives `FromRaw` of exactly the bytes read. |
| Client.ReceiveTCPKeepsSlot | src/server/Client.rs:47-73 | A read never changes the address, account or state. The stream is lost only on another error, which yields Disconnected. A request other than Disconnected comes only from a non-empty read. |
| Config.ToString | src/server/Config.rs:11-18 | Every permission has a non-empty name ("dev", "player"). |
| Config.PermissionOf | src/server/Config.rs:101-106 | A permission name read from the settings is accepted only if it is the name of that permission. |
| Config.PermissionNameRoundTrip | src/server/Config.rs:11-18 | Reading back the name of a permission gives that permission. |
| Config.Check | src/server/Config.rs:20-31 | Player level is always granted. Developer level is granted iff the holder is Developer. |
| Config.CheckIsOrder | src/server/Config.rs:20-31 | `check` is reflexive, transitive and antisymmetric: a total order with Player below Developer. |
| Config.Config.Default | src/server/Config.rs:44-57 | Not extended, tick rate 1, send time 1 s, receive time 0.5 s, no permissions, first checkpoint "main". |
| Config.Config.GetPermission | src/server/Config.rs:161-165 | "WebClient" is always Developer. Other names are their table entry, or Player when absent. |
| Config.Config.SetPermission | src/server/Config.rs:167-170 | Only that name's entry changes. Afterwards the name has the new group, unless it is "WebClient", and every other name keeps its permission. |
| Config.Config.PlayersCount | src/server/Config.rs:172 | 10 slots when extended, else 5. |
| Voting.Voting.constructor | src/server/Voting.rs:16-26 | Empty topic, no options, no tallies, zero timeout, started now; inactive. |
| Voting.Voting.Start | src/server/Voting.rs:28-35 | Topic, options and timeout are replaced and every tally is cleared. The poll is active iff the topic is non-empty, and finished exactly when the elapsed time reaches the timeout. |
| Voting.Voting.Vote | src/server/Voting.rs:37-41 | The selection's tally grows by exactly one (a first vote gives 1), and all other tallies are unchanged. |
| Voting.Voting.GetResult | src/server/Voting.rs:50-59 | The order visits every selection once. The result is the option of the leader over that order together with its tally. An unchecked out-of-range option index gives no result. |
| Voting.LeaderIsFirstMaximum | src/server/Voting.rs:53-57 | The leader's tally is at least every tally in the order. With no votes the leader is selection 0 with 0. Otherwise the leader is the first selection in iteration order to reach the maximum, so ties go to the first seen. |
| Voting.LeaderIsMaximum | src/server/Voting.rs:50-59 | Over an order that visits every selection once, the leader's tally is the highest tally of the poll, and a leader with votes is a selection holding that tally. |
| State.WithCheckpoint | src/server/State.rs:100-107 | The checkpoint is listed afterwards. The old list is a prefix, and the list grows by at most one. |
| State.WithCheckpointKeepsNoDup | src/server/State.rs:100-107 | Saving never introduces a duplicate checkpoint and keeps every listed one. |
| State.State.constructor | src/server/State.rs:16-26 | `State::new`, used when no save file exists: no players, checkpoints, date or chat history. |
| State.State.Load | src/server/State.rs:27-86 | The loaded tables are kept, and the checkpoint list is never empty: it falls back to the first checkpoint of the settings. |
| State.State.GetPlayerInfo | src/server/State.rs:143-150 | The remembered (name, class), or ("noname", "unknown") for an unknown address. |
| State.State.SetPlayerInfo | src/server/State.rs:152-155 | A lookup of that address gives the new pair, and every other address is unchanged. |
| State.State.Save | src/server/State.rs:100-109 | The checkpoint list becomes `WithCheckpoint` of the old one, so no duplicate appears. |
| State.MonthLength | src/server/State.rs:174-185 | The length the loop gives each month: between 28 and 31 days for months 1..12. |
| State.MonthsBeforeDecember | src/server/State.rs:171-187 | The months before the twelfth add up to 334 days, or 335 in a year divisible by 4, so the twelfth month takes the rest of the year. |
| State.MonthNameUnknownOutsideYear | src/server/State.rs:189-204 | The month name is "???" iff the month is outside 1..12. |
| State.YearLoop | src/server/State.rs:168-169 | The year loop leaves at most 365 days, and years × 365 plus the days left recompose the day count. |
| State.YearCount | src/server/State.rs:168-169 | The year loop as written ends where `YearLoop` does: at most 365 days left, with the years counted off added. |
| State.MonthLoopAsWrittenStuck | src/server/State.rs:171-187 | As written, a pass in month 1 with no more days than its length changes nothing and does not break. |
| State.EpochStartStuck | src/server/State.rs:163-187 | Epoch second 0 (1 January 1970) reaches that state. |
| State.MonthStepFixed | src/server/State.rs:171-187 | The corrected month step: each advance moves to the next month and strictly lowers a non-negative day count, so the loop ends. |
| State.MonthStepFixedAgrees | src/server/State.rs:171-187 | The corrected step equals the written one everywhere except where the written one would spin, and there it stops. |
| State.SplitClock | src/server/State.rs:163-166 | Seconds < 60, minutes < 60 and hours < 24. Together they recompose the time of day, and the days are the whole days. |
| State.ClockParts | src/server/State.rs:163-166 | Dividing by 60, 60 and 24 in turn equals dividing by 3600 and 86400. |
| State.MonthsBeforeGrows | src/server/State.rs:171-187 | Each month step moves exactly one month's length from the days to the months before. |
| State.MonthLoop | src/server/State.rs:171-187 | The corrected month loop ends in a month 1..12 whose earlier months plus the day give the day of the year, with the day within its month. |
| State.GetDateTime | src/server/State.rs:157-206 | The clock fields are in range and recompose the time of day. The year is at least 1970 and is the year loop's. The month is one of the twelve, named and not "???", and the day is within it. |
| Server.FreeSlots | src/server/Server.rs:57-61 | The slot table is exactly the slots 1..n, each `Client::default()`. |
| Server.Server.constructor | src/server/Server.rs:43-95 | Every slot 1..n is free, both queues are empty, the game has not started and the poll is new and inactive. |
| Server.Split | src/server/Server.rs:620-645 | The loop returns exactly `Tokens(src)`, the tokenizer's reference definition. |
| Server.ScanStep | src/server/Server.rs:627-640 | Reading one more character keeps the tokens of the whole text the same. |
| Server.SplitFromWellFormed | src/server/Server.rs:629-642 | From any point of the scan, no token is empty and none holds a quote. |
| Server.TokensWellFormed | src/server/Server.rs:620-645 | `split` never yields an empty token or one containing `"`. |
| Server.SplitFromKeeps | src/server/Server.rs:627-642 | From any point of the scan, the tokens put together are the kept characters. |
| Server.TokensKeep | src/server/Server.rs:620-645 | The tokens, concatenated, are exactly the input without its quotes and without the spaces outside quotes. |
| Server.SplitFromSpace | src/server/Server.rs:629-632 | Outside quotes, a space splits the text into the tokens of either side. |
| Server.TokensSpace | src/server/Server.rs:629-632 | For a quote-free `a`, the tokens of `a + " " + b` are the tokens of `a` followed by those of `b`. |
| Server.SplitFromWord | src/server/Server.rs:639 | A word without spaces or quotes is gathered into the current token. |
| Server.SplitFromQuoted | src/server/Server.rs:629-638 | Inside quotes, everything up to the closing quote, spaces included, is one token. |
| Server.TokensQuoted | src/server/Server.rs:629-638 | A quoted non-empty phrase is one token, spaces included, and the rest is tokenized independently. |
| Server.Pass | src/server/Server.rs:511-516 | One pass over the slots in iteration order. A slot it finds is a byte. |
| Server.Search | src/server/Server.rs:509-517 | Passes repeated until one finds a slot, at most `fuel` of them. A found id is a byte. |
| Server.PassKeepsLowOccupied | src/server/Server.rs:511-516 | A pass keeps "every slot up to minID is occupied", and a slot it finds is free with every lower slot occupied. |
| Server.SearchKeepsLowOccupied | src/server/Server.rs:509-517 | The same over any number of passes. |
| Server.FoundSlotIsLowestFree | src/server/Server.rs:505-519 | A slot the search finds exists, is at least 1, has no stream, and every slot below it is occupied. |
| Server.PassNeverFindsInFullTable | src/server/Server.rs:511-516 | With every slot connected, a pass never finds. |
| Server.FullTableNeverFound | src/server/Server.rs:509-517 | With every slot connected, no number of passes finds: the `while !found` loop has no exit, so the `id != 0` guard of `listen` is never reached. |
| Server.LowestFree | src/server/Server.rs:505-519 | The corrected answer: a free slot with every slot below it taken, or 0 exactly when every slot is taken. |
| Server.SearchFindsLowestFree | src/server/Server.rs:505-519 | Whenever the search as written ends, it ends on `LowestFree`. |
| Server.Server.FirstFreeSlot | src/server/Server.rs:505-519 | The corrected loop over the slots in increasing order answers `LowestFree`. |
| Server.SearchCanCycle | src/server/Server.rs:509-517 | With slots 1 and 2 taken, slot 3 free and iteration order 2, 1, 3, no number of passes finds the free slot. |
| Server.Server.GetAvailablePlayerID | src/server/Server.rs:505-519 | The loop returns the slot the search finds, under the precondition that it finds one. |
| Server.ClassChoice | src/server/Server.rs:589-603 | Asking for the class already held gives "unknown". Otherwise the wanted class is granted iff nobody holds it, or exactly one holds it and extended play is on; if not granted, the previous class is kept. |
| Server.Listed | src/server/Server.rs:593 | The ids the iteration visits. |
| Server.CountHoldersIsCardinality | src/server/Server.rs:592-596 | The loop's count is the number of visited slots holding the class, so it does not depend on the order. |
| Server.CardinalityStep | src/server/Server.rs:595 | Visiting one more slot adds one to the count exactly when that slot holds the class. |
| Server.Server.UpdateClass | src/server/Server.rs:589-603 | The result is `ClassChoice` with the number of slots holding the wanted class. |
| Server.Server.Listen | src/server/Server.rs:97-119 | The new player gets the lowest free slot, found by the corrected search. A full table (slot 0) changes nothing. The slot is connected with the remembered name and the class `updateClass("unknown", remembered)` grants, only that slot changes, and `Login(id, name)` is queued. |
| Server.SlotOf | src/server/Server.rs:174 | The slot of a record is its first byte's low three bits, so it is below 8. |
| Server.Intake | src/server/Server.rs:166-187 | Taking datagrams never adds or removes a slot. |
| Server.FirstSenderAppend | src/server/Server.rs:177 | A later datagram changes a slot's first sender only when it has none yet. |
| Server.IntakePerSlot | src/server/Server.rs:166-187 | Per slot: the stream and account are kept. A bound address is never rebound, and an unbound slot takes the first accepted sender. The state is the last accepted 9-byte record for the slot. Datagrams not 9 bytes long are ignored. |
| Server.Server.IntakeUDP | src/server/Server.rs:166-187 | The draining loop leaves the slots exactly as `Intake` of the datagrams in arrival order. |
| Server.Peers | src/server/Server.rs:494-496 | The slots whose records go to slot `i`: ids in 1..n with an address, never `i` itself. |
| Server.PeersComplete | src/server/Server.rs:494-496 | Every other slot with an address is included. |
| Server.PeersIncreasing | src/server/Server.rs:494 | In increasing id order. |
| Server.PeerStatesStep | src/server/Server.rs:494-498 | One more id in the loop appends its 9-byte record iff it is another slot with an address. |
| Server.StatesOfLength | src/server/Server.rs:497 | A packet holds 9 bytes per included slot. |
| Server.StatePacketContents | src/server/Server.rs:493-499 | A packet is 9 × (other bound slots) bytes long. It is non-empty iff some other slot has an address, and it never holds the receiver's record. |
| Server.StateSendsStep | src/server/Server.rs:487-502 | The packets of the first `n` slots are those of the first `n`-1 followed by slot `n`'s. |
| Server.Server.PacketFor | src/server/Server.rs:493-498 | The buffer is exactly the records of `Peers`, in id order. |
| Server.Server.BroadcastState | src/server/Server.rs:485-503 | One packet per slot with an address and a non-empty buffer, in id order, as `StateSends` states. |
| Server.DepartedAppend | src/server/Server.rs:459-463 | A queued Disconnected(id) adds `id` to the departed slots, and any other message adds nothing. |
| Server.DepartedLast | src/server/Server.rs:459-463 | The same, read from the end of the queue. |
| Server.BroadcastFoldSlots | src/server/Server.rs:453-481 | After the queue, every departed slot is `Client::default()`, and an unknown id gets a fresh default slot. Every other slot is untouched. |
| Server.RecipientsAfter | src/server/Server.rs:453-481 | The players still connected afterwards are those connected before, minus the departed. |
| Server.DeliveriesLast | src/server/Server.rs:453-458 | The last message is written to the players still connected after the earlier ones. |
| Server.BroadcastFoldDeliveries | src/server/Server.rs:451-483 | There is one write per queued message, in queue order. Message k is `ToRaw` of it, sent to every initially connected player not sent off by an earlier message of the queue. |
| Server.DeliveryAt | src/server/Server.rs:451-483 | Write k of the queue is `ToRaw` of message k, sent to the initially connected players less those whose departure was sent before it. |
| Server.Server.BroadcastTCP | src/server/Server.rs:451-483 | Slots and writes are exactly `BroadcastFold` of the old slots and queue, and the queue is empty afterwards. |
| Server.Poll | src/server/Server.rs:157-164 | Reading the streams never adds or removes a slot. |
| Server.PollOneRequestPerSlot | src/server/Server.rs:157-164 | Slots not visited are untouched. Each request comes from a visited, connected slot and is what `receiveTCP` returned there. No slot yields two requests. |
| Server.PollUntouched | src/server/Server.rs:157-164 | A slot that the iteration order does not visit keeps its state through a poll. |
| Server.PollRequestsFrom | src/server/Server.rs:157-164 | Every request of a poll comes from a visited slot that had a stream, and it is what `receiveTCP` returned for that slot's read. |
| Server.PollNoRepeat | src/server/Server.rs:157-164 | No two requests of one poll come from the same slot. |
| Server.Server.PollTCP | src/server/Server.rs:157-164 | The order visits every slot once. The slots become `Poll`'s, and its requests are appended to the request queue. |
| Server.Kick | src/server/Server.rs:541-553 | Every kick line is logged without an author. |
| Server.KickStep | src/server/Server.rs:541-553 | One more slot in the kick loop: a slot whose player has the target name adds `Disconnected(id)` and the kick line to the queue and the line to the log. Other slots add nothing. |
| Server.DepartedKicked | src/server/Server.rs:545-550 | The two messages of one kick depart exactly that slot. |
| Server.KickDepartsNamed | src/server/Server.rs:541-553 | `kick` sends off exactly the visited slots whose player has the target name. |
| Server.Server.KickPlayers | src/server/Server.rs:530-553 | The queue and the chat log grow by exactly `Kick`'s messages and lines. |
| Server.VotingAnnouncement | src/server/Server.rs:565-567 | The announcement of a poll is a command line (starts with `/`). |
| Server.VotingResultAnnouncement | src/server/Server.rs:198-202 | The announcement of an outcome is a command line. |
| Server.QuotedListTokens | src/server/Server.rs:566 | The quoted option list reads back as the options. |
| Server.WordTokens | src/server/Server.rs:620-645 | A bare word is one token. |
| Server.VotingWords | src/server/Server.rs:198-202 | "voting" and "votingResult" are bare words. |
| Server.CommandTokens | src/server/Server.rs:565-566 | A command word, a quoted topic and the rest read back as the word, the topic and the rest's tokens. |
| Server.VotingAnnouncementTokens | src/server/Server.rs:565-567 | The poll announcement without its slash, read by `split`, gives "voting", the topic and the options, so the clients recover them, for topics and options that are non-empty and quote-free. |
| Server.VotingResultTokens | src/server/Server.rs:198-202 | The result announcement reads back as "votingResult", the topic and the winning option. |
| Server.CommandEffect | src/server/Server.rs:521-581 | The effect of a command: `kick` only sends off and logs anonymously. A poll start queues two announcements and logs nothing. A counted vote queues one. A vote is counted iff the line is `vote n` with `n` a number that fits a byte, and then for option `n`. |
| Server.PollEffect | src/server/Server.rs:555-581 | `voting` with fewer than 4 words, `vote` without a numeric selection, and unknown commands do nothing. Otherwise the poll is restarted with two announcements or a vote is counted with one; nothing is logged. A vote is counted iff the words are `vote n` with `n` parsing as a byte, and it is for `n`. |
| Server.VoteLines | src/server/Server.rs:216-255 | The number of queued `/vote` lines for an option: at most the queue length, and 0 when no request votes for it. |
| Server.FirstVoteFits | src/server/Server.rs:571-581 | When each tally has room for the queued vote lines for it, the first request's own `vote` has room too. |
| Server.RestFits | src/server/Server.rs:216-255 | Handling the first request keeps room in each tally for the vote lines of the rest of the queue. |
| Server.Server.Cmd | src/server/Server.rs:521-581 | The command's queue messages, log lines and poll change are applied exactly as `CommandEffect` of `split` of the line. |
| Server.Server.PollCommand | src/server/Server.rs:555-581 | The `voting`/`vote` branches are applied exactly as `PollEffect`. |
| Server.Server.StartVoting | src/server/Server.rs:557-569 | The start is announced in words and as the command line, and the poll restarts with topic, options (words 3..) and timeout. |
| Server.Server.CastVote | src/server/Server.rs:573-580 | The vote is announced and counted. |
| Server.Server.HandleRequest | src/server/Server.rs:220-255 | Invalid changes nothing. Register renames the slot and queues `Login`. Disconnected queues `Disconnected(id)`. A chat line without a slash is relayed and logged under the player's name. A line with a slash is a command without its slash: the slots stay the same and the whole `CommandEffect` of its words is applied, the poll change included. No tally grows except by this request's own `vote` line for it. |
| Server.Server.Rename | src/server/Server.rs:226-235 | Registration renames the sender's slot and nothing else in the table, and queues exactly one `Login` for it. |
| Server.Server.Say | src/server/Server.rs:242-253 | A plain chat line is queued once for broadcast and logged once under the sender's name. |
| Server.Server.HandleRequests | src/server/Server.rs:216-255 | Each tally has room for the queued `vote` lines for it. Every queued request is handled in order and the request queue is empty afterwards. The slots stay the same, and the announcement queue and chat log only grow. |
| Server.Server.ResolveVoting | src/server/Server.rs:189-204 | The order visits every selection once. A poll that is active and past its deadline is closed: the outcome is announced in words and as the `/votingResult` line, and a fresh poll replaces it. The fresh poll is inactive, with no options, no tallies, timeout 0 and its clock started now. Otherwise nothing changes. |
| ClientNet.ParseState | src/ae2d/Network.rs:25-50 | The id is the low three bits, so below 8. moveX is -1, 0 or 1, and the four fields fit 16 bits. |
| ClientNet.RawState | src/ae2d/Network.rs:52-67 | A record is always 9 bytes. |
| ClientNet.StatusByteOfSmallId | src/ae2d/Network.rs:25-59 | For an id below 8, the status byte carries the id in the low three bits. Bit 5 means moveX = -1, bit 4 means moveX = 1, bit 3 is jump, bit 7 attack and bit 6 protect. |
| ClientNet.RawStateBytes | src/ae2d/Network.rs:60-66 | The record is the status byte followed by pos.x, pos.y, vel.x and vel.y as little-endian 16-bit values. |
| ClientNet.RawStateRoundTrip | src/ae2d/Network.rs:25-67 | Parsing the record of a state with an id below 8, moveX in {-1,0,1} and 16-bit fields gives back that id and state. |
| ClientNet.RawStateLargeIdAliases | src/ae2d/Network.rs:25-67 | An id of 8 or more does not survive the record, and one with bit 3 set reads back as jumping. |
| ClientNet.StatusByteKeepsJump | src/ae2d/Network.rs:54-57 | The id is OR-ed into the status byte, so its bit 3 becomes the jump flag. |
| ClientNet.BitsRoundTrip | src/ae2d/Network.rs:27 | A byte read as a number and back is unchanged. |
| ClientNet.NulFrom | src/ae2d/Network.rs:241-244 | The first NUL from a position, if any, and no NUL before it. |
| ClientNet.NonEmpty | src/ae2d/Network.rs:286-290 | The player list keeps only non-empty pieces, all taken from the split. |
| ClientNet.DecodeAt | src/ae2d/Network.rs:231-359 | Decoding at a cursor either fails or advances it within the buffer. |
| ClientNet.DecodeLogin | src/ae2d/Network.rs:235-264 | A decoded login (id, then name and class each up to a NUL) moves the cursor forward, staying within the buffer. |
| ClientNet.DecodeGetInfo | src/ae2d/Network.rs:265-310 | A decoded server-info message moves the cursor forward, staying within the buffer. |
| ClientNet.DecodeTagAndByte | src/ae2d/Network.rs:311-357 | A decoded Disconnected or GameReady (tag and one byte) moves the cursor forward, staying within the buffer. |
| ClientNet.DecodeChat | src/ae2d/Network.rs:317-333 | A decoded chat message (up to its NUL) moves the cursor forward, staying within the buffer. |
| ClientNet.DecodeSelectChar | src/ae2d/Network.rs:334-351 | A decoded class choice (up to its NUL) moves the cursor forward, staying within the buffer. |
| ClientNet.ScanNul | src/ae2d/Network.rs:241-244 | The scanning loop returns exactly `NulFrom`. |
| ClientNet.DecodeOne | src/ae2d/Network.rs:233-359 | One pass of the decoder loop is exactly `DecodeAt`. |
| ClientNet.ReadLogin | src/ae2d/Network.rs:235-264 | The Login branch is exactly `DecodeLogin`. |
| ClientNet.ReadGetInfo | src/ae2d/Network.rs:265-310 | The GetInfo branch is exactly `DecodeGetInfo`. |
| ClientNet.ReadChat | src/ae2d/Network.rs:317-333 | The Chat branch is exactly `DecodeChat`. |
| ClientNet.ReadSelectChar | src/ae2d/Network.rs:334-351 | The SelectChar branch is exactly `DecodeSelectChar`. |
| ClientNet.ParseMessages | src/ae2d/Network.rs:227-362 | The decoder loop returns exactly `Decode` of the buffer: the messages in order, or no result where the source would index past the buffer. |
| ClientNet.UnknownTagSkipped | src/ae2d/Network.rs:358 | An unknown tag skips exactly one byte. |
| ClientNet.UnterminatedChatFails | src/ae2d/Network.rs:317-333 | A chat with no NUL terminator cannot be decoded. |
| ClientNet.DecodeAtServerMessage | src/ae2d/Network.rs:311-333 | The decoder reads the server's encoding of Disconnected(id), and of Chat(text) with NUL-free text, as that message and consumes exactly its bytes (2, or \|text\|+2). |
| ClientNet.DecodeFromServerMessage | src/ae2d/Network.rs:227-362 | Such an encoding inside a stream contributes exactly that message and decoding resumes right after it. |
| ClientNet.ServerLoginUndecodable | src/ae2d/Network.rs:250-262 | The server's Login packet alone in a buffer cannot be decoded, because the client expects a second NUL-terminated class. |
| ClientNet.ServerLoginReadsOn | src/ae2d/Network.rs:250-263 | A server Login followed by more bytes is decoded with its own slot and name, and its class is read from the following bytes up to the next NUL, which are consumed; with no later NUL nothing is decoded. |
| ClientNet.LoginAfterName | src/ae2d/Network.rs:250-263 | Once the name's NUL is found, the decoded class is what lies between it and the next NUL, and decoding resumes after that. |
| ClientNet.NulFromFirst | src/ae2d/Network.rs:250-262 | The scan for a NUL stops at the first NUL after a NUL-free stretch. |
| ClientNet.ServerLoginThenChat | src/ae2d/Network.rs:250-263 | A server Login followed by a chat line decodes as one Login whose class is the chat's tag and text. The chat line is lost. |
| ClientNet.LoginSwallowsRun | src/ae2d/Network.rs:250-263 | A server Login followed by any NUL-free bytes and a NUL decodes as one Login whose class is those bytes, and the cursor moves past the NUL. |
| ClientNet.Truncated | src/ae2d/Network.rs:137-160 | A read fills at most the buffer: a prefix of the data. |
| ClientNet.Applied | src/ae2d/Network.rs:181-185 | Applying records never changes the number of states. |
| ClientNet.BatchStep | src/ae2d/Network.rs:181-185 | A record naming an existing slot extends the applied prefix, and one that does not ends it. |
| ClientNet.AppliedStep | src/ae2d/Network.rs:183-184 | One more record overwrites exactly `state[id-1]`. |
| ClientNet.ParseBatch | src/ae2d/Network.rs:181-183 | A batch holds \|data\|/9 records. |
| ClientNet.ParseBatchIndex | src/ae2d/Network.rs:183 | Record i is parsed from bytes 9i..9i+9. |
| ClientNet.FitPrefix | src/ae2d/Network.rs:181-185 | The records applied before one names a missing slot. |
| ClientNet.AppliedLastWins | src/ae2d/Network.rs:181-185 | After a batch, each slot holds its last record, or its old state when none names it. |
| ClientNet.Network.constructor | src/ae2d/Network.rs:87-103 | No sockets, no identity, default own state, no peer states and an empty history. |
| ClientNet.Network.GetEP | src/ae2d/Network.rs:132-135 | Extended iff the state count divided by 5 is 2. |
| ClientNet.Network.SetEP | src/ae2d/Network.rs:124-130 | The states are resized to 10 or 5, keeping existing entries and padding with the default. `getEP` then returns the flag. |
| ClientNet.Network.SetState | src/ae2d/Network.rs:364-375 | Only the own state changes, to exactly the given fields. |
| ClientNet.Network.ReceiveUDP | src/ae2d/Network.rs:137-160 | Draining keeps only the last datagram, truncated to the 128-byte buffer, or empty bytes when none came. A failure other than would-block drops the socket and gives nothing. |
| ClientNet.Network.ApplyStates | src/ae2d/Network.rs:172-188 | A batch whose length is not a multiple of 9 drops the socket and stops the thread, with the states unchanged. Otherwise each record overwrites the slot it names, in order, until one names a missing slot, which stops the thread. When all were applied, the own record is sent back. |
| ClientNet.Network.ReceiveTCP | src/ae2d/Network.rs:194-224 | With no stream the thread ends. A received buffer, truncated to 256 bytes, is decoded and its messages appended to the history, and an undecodable one ends the thread. A refused connection drops the stream and ends the thread. Would-block and other errors change nothing. |
| Bind.Code | src/ae2d/bind.rs:451-460 | Every message kind has a code 1..7. |
| Bind.HasMessage | src/ae2d/bind.rs:446-463 | True iff the history holds a message whose kind code is the one asked for. |
| Bind.FirstRetrievable | src/ae2d/bind.rs:471-537 | The first history entry of a kind `getMessage` handles, and none before it. |
| Bind.SwapRemove | src/ae2d/bind.rs:538 | `swap_remove` shortens the history by one. |
| Bind.SwapRemoveMultiset | src/ae2d/bind.rs:538 | `swap_remove` removes exactly that one entry and keeps all others. |
| Bind.GetMessage | src/ae2d/bind.rs:465-542 | Requires that a `GetInfo` entry to be handed out has readable player entries (the source panics otherwise). The first entry of the asked kind is returned and swap-removed, and for `GetInfo` its player rows are returned as read. With none, nothing is returned and the history is unchanged. |
| Bind.FirstRetrievableIs | src/ae2d/bind.rs:471-542 | An entry that `getMessage` handles, with none before it, is the first such entry. |
| Bind.SetPositionNeverRetrieved | src/ae2d/bind.rs:446-542 | `getMessage(4)` never finds anything, even when `hasMessage(4)` holds. |
| Bind.PlayerEntry | src/ae2d/bind.rs:507-517 | An "id/name/class" entry gives a slash-free name and class. |
| Bind.PlayersTable | src/ae2d/bind.rs:505-519 | One row per player entry. |
| Bind.PlayersTableIndex | src/ae2d/bind.rs:505-519 | The table reads iff every entry parses, and then row `k` is entry `k` read. |
| Bind.ReadPlayers | src/ae2d/bind.rs:505-519 | The loop over the entries returns exactly the rows of the table. |
| Bind.PlayerEntryRoundTrip | src/ae2d/bind.rs:507-517 | "id/name/class" with a slash-free name and class reads back as (id, name, class). |
| Bind.Disconnect | src/ae2d/bind.rs:390-400 | Class, id and name are cleared and both sockets dropped. |
| Bind.Login | src/ae2d/bind.rs:402-410 | Id, name and class become the given ones. |
| Bind.GetState | src/ae2d/bind.rs:427-444 | Id 0 gives the default state without reading the table. Any other id gives `state[id-1]`. |
| Bind.Packet | src/ae2d/bind.rs:544-576 | A packet is written (non-empty) iff the code is 1, 2, 4, 5 or 6. |
| Bind.PacketAsServerReads | src/ae2d/bind.rs:550-559 | The server reads the code-1 packet as Register(name) and the code-2 packet as Chat(msg). Codes 4, 5 and 6 read as Invalid. |
| UI.Apply | src/ae2d/UI.rs:569-580 | A style token sets its flag: `*` bold, `/` italic, `_` underlined, `-` strikethrough, `<` newline. Other flags and the text are kept. |
| UI.Styled | src/ae2d/UI.rs:568-580 | Styling never changes the text. |
| UI.StyledFlags | src/ae2d/UI.rs:568-580 | After a span, each flag is set iff it was set before or its token is in the span. |
| UI.RawSpan | src/ae2d/UI.rs:562-566 | A span's contents contain no `)`. |
| UI.AfterSpan | src/ae2d/UI.rs:561-566 | What follows a span is no longer than the text. |
| UI.Parse | src/ae2d/UI.rs:537-586 | The parts a string becomes: at least one. |
| UI.OnlyLastEmpty | src/ae2d/UI.rs:537-586 | Only the last part can have empty text. |
| UI.JoinAppend | src/ae2d/UI.rs:717-720 | Joining texts distributes over concatenation. |
| UI.JoinParse | src/ae2d/UI.rs:537-586 | The parts' texts joined are the current text plus the rest with every markup span removed. |
| UI.JoinMarkup | src/ae2d/UI.rs:543-581 | The same for a markup span, from the rest after it. |
| UI.JoinFlushed | src/ae2d/UI.rs:545-547 | Flushing a part keeps the joined text. |
| UI.JoinChar | src/ae2d/UI.rs:582 | The same for a plain character, from the rest after it. |
| UI.GetStringAfterSetString | src/ae2d/UI.rs:522-589 | `getString` after `setString(s)` is `s` with every `^(...)` span removed. A span without `)` runs to the end, and a `^` not followed by `(` stays. |
| UI.SpansAccumulate | src/ae2d/UI.rs:545-581 | Two spans with no text between them style the same part. |
| UI.SpanParts | src/ae2d/UI.rs:561-566 | A span's contents and what follows it. |
| UI.SpanEnds | src/ae2d/UI.rs:562-566 | The span ends at the first `)` or at the end. |
| UI.MarkupStep | src/ae2d/UI.rs:543-581 | One markup pass of the loop keeps the loop's reference equation. |
| UI.SpanOf | src/ae2d/UI.rs:561-566 | The loop's span is the reference span. |
| UI.CharStep | src/ae2d/UI.rs:582 | One plain-character pass keeps the loop's reference equation. |
| UI.TailIs | src/ae2d/UI.rs:543 | The rest of the string at an index. |
| UI.ReadSpan | src/ae2d/UI.rs:559-580 | Reads a span up to `)` or the end and styles the part with its tokens. |
| UI.Text.New | src/ae2d/UI.rs:493-507 | No parts, size 48, and a layout still to do. |
| UI.Text.SetString | src/ae2d/UI.rs:522-589 | The old parts are dropped. The parts become exactly `Parse` of the string, and a layout is due. |
| UI.Text.GetString | src/ae2d/UI.rs:713-723 | The parts' texts, one after another. |
| UI.Text.Update | src/ae2d/UI.rs:591-690 | The layout flag is cleared. |
| UI.Text.SetSize | src/ae2d/UI.rs:692-696 | The size changes and a layout is due. |
| UI.Code16 | src/ae2d/UI.rs:427 | A character is looked up by its code truncated to 16 bits. |
| UI.GetGlyph | src/ae2d/UI.rs:418-433 | A loaded glyph, or the all-zero glyph for a character that was not loaded. |
| UI.GlyphAliases | src/ae2d/UI.rs:427 | Characters 65536 apart share a glyph. |
| UI.Order | src/ae2d/UI.rs:993-998 | The draw order keeps the given characters and fills the missing positions with 'i', 't', 'c'. |
| Skeleton.ResolvePath | src/ae2d/Skeleton.rs:101-113 | The empty path is the bone itself. A one-step path resolves iff the bone has that child. |
| Skeleton.ResolveAppend | src/ae2d/Skeleton.rs:101-113 | Resolving `p + q` resolves `p`, then `q` from there. No match anywhere gives None. |
| Skeleton.FromName | src/ae2d/Skeleton.rs:222-232 | A name maps to the variant of that name, or to Const. |
| Skeleton.ParseAngle | src/ae2d/Skeleton.rs:216-233 | The interpolation is named by the first word, or is Const. |
| Skeleton.AngleRoundTrip | src/ae2d/Skeleton.rs:173-233 | Every interpolation's name, written with an angle, parses back to that interpolation and angle. |
| Skeleton.NextCursor | src/ae2d/Skeleton.rs:273-315 | The cursor stays below the frame count and grows by at most one. It goes back only to 0, only when repeating from the last frame whose timestamp exceeds the time. With at most one frame it does not move. |
| Skeleton.BoneAfter | src/ae2d/Skeleton.rs:273-315 | An update keeps the bone's length, layer and children, and only sets a texture a frame names. With no frames the bone is unchanged. With one frame it takes that frame's angle, and its texture only if non-empty. |
| Skeleton.Timeline.New | src/ae2d/Skeleton.rs:251-258 | No frames, cursor 0. |
| Skeleton.Timeline.Update | src/ae2d/Skeleton.rs:273-315 | The cursor and the bone become exactly `NextCursor` and `BoneAfter`, and the cursor stays valid. |
| Skeleton.Animation.Restart | src/ae2d/Skeleton.rs:374-378 | The time and every timeline's cursor become 0, and the frames are kept. |
| Skeleton.Animation.CalculateDuration | src/ae2d/Skeleton.rs:380-390 | The duration is the largest last-frame timestamp over all timelines: at least each one and equal to one of them, or 0 with none. |
| Skeleton.Skeleton.New | src/ae2d/Skeleton.rs:406-418 | No animations and no current one. |
| Skeleton.Skeleton.SetAnimation | src/ae2d/Skeleton.rs:515-524 | The current name or an unknown name changes nothing. Otherwise the previous animation is restarted and the current one switched. The restart zeroes the time and every bone's key index. The bones, their frames, the duration and the repeat setting stay. |
| FrameAnimation.Step | src/ae2d/FrameAnimation.rs:67-88 | A cursor stays on a frame. An exhausted animation (repeat ≠ 0, repeated ≥ repeat) changes nothing and reports false. Otherwise the result reports true iff the frame changed or the time was 0 before. |
| FrameAnimation.StepCases | src/ae2d/FrameAnimation.rs:72-86 | Time below the frame's duration only adds up. Reaching it subtracts the duration and moves one frame. Past the last frame, repeat 0 wraps to frame 0 at time 0, and otherwise `repeated` grows and the frame stays last. |
| FrameAnimation.StepKeepsSound | src/ae2d/FrameAnimation.rs:67-88 | With non-negative durations and delta, time and repeat count stay non-negative. |
| FrameAnimation.OneFrameRedraws | src/ae2d/FrameAnimation.rs:36-88 | A one-frame animation stays put and reports a change on every update. |
| FrameAnimation.Animation.OneFrame | src/ae2d/FrameAnimation.rs:36-47 | One zero-length frame with the id, no repeat, at the start. |
| FrameAnimation.Animation.Update | src/ae2d/FrameAnimation.rs:67-88 | The cursor and the result are exactly `Step`'s. |
| FrameAnimation.CellRects | src/ae2d/FrameAnimation.rs:181-186 | One rectangle per cell: origin and frame size divided by the sheet size. |
| FrameAnimation.CellRectsAppend | src/ae2d/FrameAnimation.rs:177-191 | Rows of cells give rows of rectangles. |
| FrameAnimation.Animator.New | src/ae2d/FrameAnimation.rs:106-117 | Zero sizes, no animations, no frames. |
| FrameAnimation.Animator.Update | src/ae2d/FrameAnimation.rs:166-170 | With no animations it reports false. Otherwise the current animation steps exactly as `Step` and keeps its name, frames and repeat setting. The current animation is still on one of its frames afterwards, so updates compose. |
| FrameAnimation.Animator.CalculateFrames | src/ae2d/FrameAnimation.rs:172-192 | The frames become one rectangle per cell of the row-major grid, replacing the old ones. |
| FrameAnimation.Animator.PushRow | src/ae2d/FrameAnimation.rs:179-190 | The inner loop appends one row's rectangles. |
| FrameAnimation.Animator.GetCurrentFrame | src/ae2d/FrameAnimation.rs:194-199 | A zero rectangle with no frames or no animations. Otherwise the frame the current animation shows. |
| FrameAnimation.Animator.SwitchTarget | src/ae2d/FrameAnimation.rs:203-211 | The first animation with the name that is not the current one, if any. |
| FrameAnimation.Animator.SetCurrentAnimation | src/ae2d/FrameAnimation.rs:201-221 | With no such animation nothing changes. Otherwise the first animation with the name becomes current and every animation is rewound. |
| FrameAnimation.Animator.Restart | src/ae2d/FrameAnimation.rs:214-221 | Every animation's time and frame become 0, and everything else is kept. |
| Sprite.Advance | src/ae2d/Sprite.rs:68-87 | The frame stays valid. An exhausted animation does not move. |
| Sprite.AsFrames | src/ae2d/Sprite.rs:10-18 | The sprite's (id, duration) pairs as frames. |
| Sprite.AdvanceAgreesWithStep | src/ae2d/Sprite.rs:68-87 | The sprite's update moves the cursor exactly like the frame animator's update. |
| Sprite.Animation.Update | src/ae2d/Sprite.rs:68-87 | The cursor becomes exactly `Advance` of the old one. |
| Sprite.CellRects | src/ae2d/Sprite.rs:267-272 | One (x, y, fw, fh) rectangle per cell origin. |
| Sprite.CellRectsAppend | src/ae2d/Sprite.rs:263-277 | Rows of cells give rows of rectangles. |
| Sprite.Sprite.New | src/ae2d/Sprite.rs:108-139 | No animations, no current one, no frames. |
| Sprite.Sprite.Update | src/ae2d/Sprite.rs:250-256 | The current animation, if present, advances exactly as `Advance` and keeps its frames and repeat setting. Its frame stays within its frames, so updates compose. |
| Sprite.Sprite.CalculateFrames | src/ae2d/Sprite.rs:258-278 | The old frames are cleared, then one rectangle per cell of the row-major grid. |
| Sprite.Sprite.PushRow | src/ae2d/Sprite.rs:265-274 | The inner loop appends one row's rectangles. |
| Sprite.Sprite.GetCurrentFrame | src/ae2d/Sprite.rs:280-286 | Zero with no frames or no animations. Otherwise the frame indexed by the current animation's frame id. |
| Sprite.Sprite.SetAnimation | src/ae2d/Sprite.rs:288-294 | The current or an absent name changes nothing. Otherwise it switches to the new animation and rewinds it, keeping its repeat count. Every other animation keeps its position, and no animation changes its frames or repeat setting. |
| Sprite.Sprite.Restart | src/ae2d/Sprite.rs:296-303 | The current animation's frame and time become 0. Its repeat count, frames and repeat setting are kept. |
| Grid.StepsIsCeiling | src/ae2d/Sprite.rs:265-273 | The number of steps of width `b` below `a` is the ceiling of a/b. |
| Grid.RowInSheet | src/ae2d/Sprite.rs:265-274 | Every cell of a row lies in the row, inside the sheet. |
| Grid.RowsInSheet | src/ae2d/Sprite.rs:263-277 | Every cell lies inside the sheet. |
| Grid.Origins | src/ae2d/Sprite.rs:258-278 | The cell origins of the whole sheet, all inside it. |
| Grid.ScanCell | src/ae2d/Sprite.rs:267-273 | One inner-loop pass emits the next cell. |
| Grid.ScanRow | src/ae2d/Sprite.rs:263-276 | One outer-loop pass emits the next row. |
| Grid.RowShape | src/ae2d/Sprite.rs:265-274 | A row has ceil((w-x)/fw) cells, at x, x+fw, x+2fw, … |
| Grid.RowsLength | src/ae2d/Sprite.rs:263-277 | The rows from height y hold ceil((h-y)/fh) × ceil(w/fw) cells. |
| Grid.RowsCell | src/ae2d/Sprite.rs:263-277 | Cell (r, c) of the rows from height y is at (c·fw, y + r·fh). |
| Grid.RowsRowMajor | src/ae2d/Sprite.rs:263-277 | The cells are in row-major order. |
| Grid.OriginsShape | src/ae2d/FrameAnimation.rs:172-192 | For positive frame sizes the sheet is a row-major grid of ceil(h/fh) × ceil(w/fw) cells. |
| GameWorld.FirstIndex | src/ae2d/World.rs:66-73 | The first entity with the id, if any, and none before it. |
| GameWorld.RemoveFirst | src/ae2d/World.rs:81-91 | With no such entity the list is unchanged. Otherwise only the first one is removed, and the others keep their order. |
| GameWorld.KillUndoesSpawn | src/ae2d/World.rs:75-91 | Killing a freshly spawned entity with a new id gives back the old list. |
| GameWorld.FirstIndexIs | src/ae2d/World.rs:68-70 | An index with the id and none before it is the first. |
| GameWorld.World.New | src/ae2d/World.rs:18-28 | No name, entities or triggers. |
| GameWorld.World.Parse | src/ae2d/World.rs:39-44 | The name is set and the entity list emptied. |
| GameWorld.World.GetEntity | src/ae2d/World.rs:66-73 | Returns the index of the first entity with the id. An absent id is excluded, as the source panics. |
| GameWorld.World.Spawn | src/ae2d/World.rs:75-79 | The new entity is appended at the end. |
| GameWorld.World.Kill | src/ae2d/World.rs:81-91 | The list becomes `RemoveFirst` of the old one. |
| GameWorld.World.CreateTrigger | src/ae2d/World.rs:93-96 | The trigger is inserted, or an existing one overwritten. |
| GameWorld.World.ModifyTrigger | src/ae2d/World.rs:98-104 | An existing trigger gets the new hitbox and keeps its name. An unknown id changes nothing. |
| Programmable.WithNum | src/ae2d/envell/World.rs:186-193 | Setting a number: an existing variable keeps its text, a new one gets empty text, and other names are unchanged. |
| Programmable.WithStr | src/ae2d/envell/World.rs:203-210 | Setting a text: an existing variable keeps its number, a new one gets 0, and other names are unchanged. |
| Programmable.NumSetGet | src/ae2d/envell/World.rs:186-201 | After setting a number, reading it gives that number and the text is kept. Other names read as before. |
| Programmable.StrSetGet | src/ae2d/envell/World.rs:195-218 | After setting a text, reading it gives that text and the number is kept. Other names read as before. |
| Programmable.SetsCommute | src/ae2d/envell/World.rs:186-210 | Setting a name's number and its text commute. |
| Programmable.Merge | src/ae2d/envell/Entity.rs:85-88 | Every supplied variable is copied in, overwriting equal names, and all other names are kept. |
| EnvellWorld.World.New | src/ae2d/envell/World.rs:35-54 | No entities, no variables. |
| EnvellWorld.World.Load | src/ae2d/envell/World.rs:67-114 | The entity list is emptied first. A missing document leaves it empty. Otherwise there is one new entity per declaration, with its id and variables. |
| EnvellWorld.World.SetNum | src/ae2d/envell/World.rs:186-193 | The store becomes `WithNum` of the old one. |
| EnvellWorld.World.SetStr | src/ae2d/envell/World.rs:203-210 | The store becomes `WithStr` of the old one. |
| EnvellWorld.World.GetNum | src/ae2d/envell/World.rs:195-201 | The stored number, or 0 for an absent name. |
| EnvellWorld.World.GetStr | src/ae2d/envell/World.rs:212-218 | The stored text, or "" for an absent name. |
| EnvellEntity.BodyTypeOf | src/ae2d/envell/Entity.rs:239-243 | "static" is Static, "kinematic" is Kinematic, and everything else is Dynamic. |
| EnvellEntity.Entity.New | src/ae2d/envell/Entity.rs:25-40 | Empty id, name, group, variables and sprites, and no body. |
| EnvellEntity.Entity.Init | src/ae2d/envell/Entity.rs:81-88 | The id is set and the supplied variables are merged in, as `Merge` states. |
| EnvellEntity.Entity.SetNum | src/ae2d/envell/Entity.rs:151-158 | The store becomes `WithNum` of the old one. |
| EnvellEntity.Entity.SetStr | src/ae2d/envell/Entity.rs:168-175 | The store becomes `WithStr` of the old one. |
| EnvellEntity.Entity.GetNum | src/ae2d/envell/Entity.rs:160-166 | The stored number, or 0 for an absent name. |
| EnvellEntity.Entity.GetStr | src/ae2d/envell/Entity.rs:177-183 | The stored text, or "" for an absent name. |
| EnvellEntity.Entity.CreateSprite | src/ae2d/envell/Entity.rs:201-208 | One sprite is appended, and its index is the old length. |
| EnvellEntity.Entity.PhysicsInit | src/ae2d/envell/Entity.rs:218-232 | The entity gets the created body. |
| EnvellEntity.Entity.PhysicsSetBodyType | src/ae2d/envell/Entity.rs:234-245 | With no body nothing is done. Otherwise the body type of the name is set. |
| EnvellEntity.Entity.PhysicsSetHitbox | src/ae2d/envell/Entity.rs:247-251 | With no body nothing is done. Otherwise the hitbox is replaced. |
| EnvellEntity.Entity.PhysicsSetTransform | src/ae2d/envell/Entity.rs:310-324 | With no body nothing is done. Otherwise the transform is set. |
| EnvellEntity.Entity.PhysicsSetVelocity | src/ae2d/envell/Entity.rs:326-336 | With no body nothing is done. Otherwise the velocity is set. |
| EnvellEntity.Entity.PhysicsApplyForce | src/ae2d/envell/Entity.rs:349-358 | With no body nothing is done. Otherwise the force is applied. |
| EnvellEntity.Entity.PhysicsGetTransform | src/ae2d/envell/Entity.rs:298-308 | Zeros with no body. Otherwise the body's pose. |
| EnvellEntity.Entity.PhysicsGetVelocity | src/ae2d/envell/Entity.rs:338-347 | Zeros with no body. Otherwise the body's velocity. |
| Common.Utf8Char | src/server/Transmission.rs:43 | A character is 1 to 4 bytes. It is one byte, its own code, iff it is ASCII. Every byte of a longer encoding is at least 0x80. |
| Common.Utf8 | src/server/Transmission.rs:37-58 | A text's bytes are at least as many as its characters, and none iff the text is empty. |
| Common.FlattenLength | src/server/Transmission.rs:37-58 | Joining non-empty encodings gives at least one byte per character. |
| Common.FlattenAvoids | src/server/Transmission.rs:37-58 | Joining encodings that avoid a byte gives bytes that avoid it. |
| Common.FlattenSingles | src/server/Transmission.rs:37-58 | Joining one-byte encodings gives one byte per character. |
| Common.Utf8AsciiLength | src/server/Transmission.rs:37-58 | An ASCII text encodes to one byte per character. |
| Common.Utf8AsciiFree | src/server/Transmission.rs:37-58 | A text without a given ASCII character encodes to bytes without that byte. This is why a NUL-free text keeps the NUL terminator unique. |
| Common.Decimal | src/server/Server.rs:192-194 | A number's decimal form is a non-empty string of digits. |
| Common.DigitsValueOfDecimal | src/server/Server.rs:192-194 | The decimal form reads back as the number. |
| Common.ParseU8 | src/ae2d/bind.rs:510 | A number is parsed only from a non-empty string of decimal digits, after an optional leading `+`. |
| Common.SplitOn | src/ae2d/bind.rs:507 | The pieces of a split: at least one, none holding the separator. |
| Common.IndexOf | src/ae2d/Network.rs:241-244 | The position of the first occurrence of a value. |
| Common.LE16 | src/ae2d/Network.rs:62-65 | A 16-bit value's two little-endian bytes read back as that value. |
| Common.FromLE16 | src/ae2d/Network.rs:36-39 | Two bytes read little-endian give a 16-bit value. |
| Common.ParseU8OfDecimal | src/ae2d/bind.rs:510 | The decimal form of a byte parses back as that byte. |
| Common.SplitOnJoin | src/ae2d/bind.rs:507 | Splitting `a ++ [sep] ++ b`, for a separator-free `a`, gives `a` and then the pieces of `b`. |

## Left out

- Sockets, threads and timers are left out. These are TCP accept, the web listener, the broadcast-discovery reply, the spawned threads and the busy-wait of the update thread. Reads become outcome datatypes, writes become output sequences, and the send timer is left to the caller.
- `Server::update` as a whole is not a single member. Its parts are modelled in order: `PollTCP`, `IntakeUDP`, `ResolveVoting`, `HandleRequests`, `BroadcastTCP` and `BroadcastState`.
- `Server::setStarted`, `getTopic` and `Voting::active`/`finished` are trivial accessors. They are predicates or fields, stated through `Start` and the constructor.
- The WebClient request branch (`todo!()`) and all the commented-out web handlers are left out. They do nothing, or panic.
- Floating point is left out. Positions, velocities and times are reals or integers. The `round()` of `PlayerState::raw` is not modelled: positions are whole numbers 0..65535. The easing formulas of `Timeline::update` are a parameter `ease`. The m/px conversions of the physics bindings are left out.
- Lua, Box2D, JSON/XML loading, file writes and GL rendering are left out. Parsed documents are inputs. Body commands are returned as values instead of being applied to a physics world. Scripts run by `init`/`load` are not modelled.
- `Config::load`/`save`, `State::init`'s file read and the JSON writing of `State::save` are left out. Only the post-parse rules are modelled: the permission names, the checkpoint fallback and the checkpoint dedup.
- State.State.Save: the new `date` string is not stated. It comes from the wall clock through `getDateTime`, whose result `GetDateTime` states on its own.
- `String::from_utf8_lossy` is not modelled. Received text is kept as bytes.
- Integer widths: tallies are bytes, and a `vote` that would push a tally past 255 is excluded by a precondition. That overflow would panic in a debug build.
- Voting.Voting.Vote: requires the tally to be below 255, because the source's `u8` addition overflows there.
- Bind.GetMessage: requires that a `GetInfo` entry it would hand out has player entries that parse, because the source's `parse().unwrap()` panics otherwise.
- Sprite.Sprite.SetAnimation: requires that no two names share one animation object. Rust map values are owned, so this always holds in the source.
- Voting.Voting.GetResult: the unchecked `options[cur.0]` panic is modelled as no result. `ResolveVoting` requires the winner to be a valid option.
- Server.Server.GetAvailablePlayerID: the loop may never end (see "## Findings"). The as-written method therefore requires that the search finds a slot within a ghost number of passes, and is proved to return that slot. `Listen` uses the corrected `FirstFreeSlot` instead.
- Server.Server.HandleRequests: states only that the queue is emptied, the slots stay the same and the announcement queue and chat log only grow. The exact effect of each request is stated by `HandleRequest`. It requires room in each tally for the queued `vote` lines for it, because the source's `u8` addition panics on overflow.
- Server.Server.Cmd and HandleRequest require the `voting` timeout to parse and a vote's tally to have room, because the source panics otherwise (`parse().unwrap()`, `u8` overflow). The float parser is a parameter.
- The random choice of the self-kick message is a parameter `roll`.
- Several revisions of the protocol are kept apart, as the source has them. The client's `ClientMessage` has seven variants and the server's three. `Server.rs` uses a `state.settings`/`getPlayersCount()` that src/server/State.rs does not define, so the slot count and the role rule are fields of the server. `Client.rs` imports a `State::Account` that State.rs does not declare, so it is modelled as a (name, class) pair.
- Decoding a whole stream of server announcements is stated per message (`DecodeFromServerMessage`), not for a whole queue. The client cannot decode a server Login at the end of a buffer (`ServerLoginUndecodable`). A Login followed by other messages takes its class from their bytes and swallows them (`ServerLoginReadsOn`, `ServerLoginThenChat`).
- A panic of `Network::parse` on a missing NUL is modelled as no result, which ends the TCP thread.
- Inner loops are factored into helper methods: the row loop of both `calculateFrames` (`PushRow`), the per-receiver packet loop of `broadcastState` (`PacketFor`) and the span loop of `setString` (`ReadSpan`).
- `calculateFrames` does not end when a frame width or height is not positive while the sheet is not empty. Both versions require that it ends (`Finite`).
- `Skeleton::update`, `Animation::update`, `Bone::update` and the drawing paths move bones through the GL scene. Bones are values, and `Timeline::update` returns the updated bone.
- UI: `Window::getColor` is a parameter `color`. `Text::update`'s layout only clears the flag. The `println!` of `getGlyph` is dropped.
- The UTF-8 encoder of `Common` covers all `char` values but, like Dafny strings, not surrogate pairs.

## Findings

| source | as written | input that shows it | evidently intended | confidence | as-written member | corrected member |
|---|---|---|---|---|---|---|
| src/server/State.rs:171-187 | In month 1, when the days do not exceed that month's length, neither inner branch applies and there is no `break`, so the `'getMonth` loop repeats forever | epoch second 0 (1 January 1970): after the year loop, days = 0 and month = 1 | the loop breaks in month 1 as in every other month, ending with the day count inside the month | not executed | State.MonthLoopAsWrittenStuck, State.EpochStartStuck | State.MonthStepFixed, State.MonthLoop, State.GetDateTime |
| src/server/Server.rs:505-519 | A pass looks at a slot only when its id is at most one above the last slot looked at, and the outer loop repeats passes until one finds a free slot. With every slot taken, no pass finds one. In an unlucky iteration order, every pass stops below the free slot. Either way the loop never ends, and the caller's check for id 0 is never reached | every slot taken; or slots 1 and 2 taken, slot 3 free and iteration order 2, 1, 3 | the lowest free slot, or 0 when all slots are taken | not executed | Server.FullTableNeverFound, Server.SearchCanCycle | Server.LowestFree, Server.Server.FirstFreeSlot, Server.SearchFindsLowestFree, Server.Server.Listen |
