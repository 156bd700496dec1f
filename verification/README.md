# A Dafny model of the rangame server's hard core

This project models the parts of the server whose correctness depends on more than one
function, and proves what they promise. `dafny verify dfyconfig.toml` checks all of it.

| files | what they model |
|---|---|
| `Wire`, `Schema`, `ProtoCodec`, `CodecProofs`, `CodecRoundTrip`, `CodecNesting`, `CodecMethods`, `CodecBytes` | the reflective protobuf codec: wire primitives, schemas of nested and repeated fields, encoder, decoder |
| `Cards`, `Classifier`, `GameRules`, `Dealing`, `Bidding`, `RoomState`, `RoomTable`, `Room` | the Dou Dizhu room: deck, shuffle, hand classifier, bidding, play, autoplay, time-out |
| `Breaker`, `BreakerRuns`, `Store`, `StoreProofs`, `StoreReplay`, `StoreWaiting`, `StoreTrips`, `StoreOrder` | the write-back store: queue, retried batches, write-ahead log, dead letters, circuit breaker |
| `Sessions`, `SessionProofs`, `SessionTokens`, `SessionManager`, `SessionRuns`, `Replay` | login sessions: concurrent registry, its indexes, reliable replay after a reconnect |
| `TimerHeap`, `Timers`, `TimerRuns` | the timer: binary heap with back-pointers, cancellation, due pass, whole runs |
| `Routes`, `RouteTable` | the routing table in Redis: routes, reverse sets, expiry, cache |
| `Frames`, `InnerLink`, `NodeLink`, `LinkBytes` | frames, the inner header, envelopes and write batching between nodes |
| `MatchQueue`, `MatchProofs`, `MatchLaws`, `MatchMaker` | the match queue and its slices |
| `Common` | what several modules share |

How the code becomes a model:

- Expressions become functions. Loops and objects become methods and classes, proved against
  a function or a property of their input. Errors are values of a `Result` or a similar type.
- Code that runs concurrently (store, session registry, route table) is a state machine whose
  steps are the sections under one lock or one atomic script, so that every interleaving is a
  run. The calls themselves are then also given as classes where they update maps in place.
- Backend failures, clocks, online or offline, socket outcomes and which case a `select` takes
  are parameters or free choices, so each statement holds for all of them.
- Integers are unbounded; 8, 32 and 64-bit truncation and wrap-around are written out where
  the code has them (varints, signed fields, the shuffle's generator, sequence numbers,
  length prefixes, parsed decimal fields).
- A task, a session, a connection and a token are named by numbers. Tokens and connection ids
  are fresh, as random tokens and connection counters are meant to be.

Where the code does not keep a promise on every input, the code is modelled as it is, with a
witness and the exact condition:

- A negative zero in a singular float field and a nil pointer in a list do not survive the
  codec (`NegativeZeroIsLost`, `NilElementIsLost`; exact condition `RoundTripIsIdentityIff`).
- A message crosses the node link unchanged exactly when its ids hold no bar and no newline
  and its frame fits (`InnerRoundTripIff`). Without a newline in an id it arrives as sent or
  is refused (`OneLineIsNeverMisread`). With one it can be taken for another message
  (`EmbeddedMessageIsMisread`; exact condition `MisreadIff`).
- A released session can come back online, outside the uid index, in two ways. A reconnect
  that found it before a sweep destroyed it binds it afterwards (`ReleasedSessionCanComeBack`).
  Or a reconnect indexes the new token only after the sweep removed the session, and that
  token still works when every call has ended (`ReleasedTokenCanStayIndexed`,
  `QuietRegistryCanHoldReleasedToken`). The exact condition is on the state: `ComesBackIff`.
- Replay reports an overflow without cause when the client claims the largest 32-bit number
  (`ReplayIsExact`).
- Requests for one match queue that ask for different table sizes can leave a player in line
  but not in the uid index (`MixedSizesBreakIndex`, `JoinBreaksIndex`; exact condition
  `JoinKeepsIndexIff`).
- A route that runs out while later logins keep its node's reverse set alive lingers there,
  and taking that node down then removes a newer route to another node
  (`ForeignRouteCanBeRemoved`; exact conditions `ForeignRouteSurvivesIff`, `StepKeepsExactIff`).
- A cache write that comes after its node was taken down brings the node back to lookups
  (`LateFillRevivesNode`). That can happen exactly when, as the node is taken down, a lookup
  that began less than three seconds ago has read it (`Routes.ComesBackIff`).
- A record the backend keeps refusing at the head of the log keeps every later record there,
  and a half-open table whose writes are all among them stays half-open
  (`ProbeCanWaitBehindRefusedHead`, `RefusedHeadBlocksTheLog`). Whatever else goes on, such a
  table leaves that state only once one of its records is taken (`HalfOpenUntilTaken`); what
  one pass achieves is exact in `PassEmptiesTheLogIff` and `PassClosesTheTableIff`.
- The landlord's very first lead has no timer when the landlord is offline as play begins,
  because autoplay's empty play is ignored (`AbsentTableHasNoTimer`; exact condition
  `NoTimerIff`). A tick that finds the landlord offline moves the game on (`Room.Tick`), to
  its end if nobody comes back (`AbsentTableEnds`), and so does the landlord's own play.
- A turn timer that was queued before the end still acts on the finished room: it passes for
  the winner, or plays a card after a time-out (`QueuedTimerActs`, `WinnerIsStillInTurn`;
  exact condition in `Room.OnTurnTimer`). Cards, log and outcome stand (`CardsAreConserved`,
  `RunRoom`).
- A game name that holds a bar can share a match line with another game (`BarSharesLine`;
  without bars lines are told apart exactly, `SameLineIff`).
- Closing the timer scheduler, or cancelling a task, does not keep back callbacks of a pass
  that has begun, although closing promises so (`CancelledTaskFires`; exact condition in
  `Scheduler.Pass`).

## Model

| member | source | states |
|---|---|---|
| Wire.VarintReadsBack | internal/protocol/codec_proto.go:109-110 | any 64-bit value is read back from its varint, whatever bytes follow |
| Wire.TagReadsBack | internal/protocol/codec_proto.go:208-212 | any field number and wire type is read back from its tag |
| Wire.FixedReadsBack | internal/protocol/codec_proto.go:115-116 | a fixed-width number is read back whatever bytes follow |
| Wire.BytesReadBack | internal/protocol/codec_proto.go:153-154 | length-delimited bytes are read back whatever bytes follow |
| Wire.FieldValueExtends | internal/protocol/codec_proto.go:214-222 | what a skipped field takes, nested groups included, does not depend on what follows it (how much that is, byte by byte: `CodecBytes.UnknownIsSkipped`) |
| CodecRoundTrip.RoundTrip | internal/protocol/codec_proto.go:57-333 | for every table of message types with distinct field numbers, recursive types included, decoding an encoded message gives its canonical form |
| CodecRoundTrip.RoundTripIsIdentityIff | internal/protocol/codec_proto.go:57-379 | the round trip gives the very same message exactly when it has no singular negative zero and no nil inside a list, at any depth |
| CodecRoundTrip.NegativeZeroIsLost | internal/protocol/codec_proto.go:365-366 | witness: a singular negative zero comes back positive, while one in a list, a record of nine bytes, survives |
| CodecRoundTrip.NilElementIsLost | internal/protocol/codec_proto.go:141-144 | witness: a nil pointer in a list is dropped, so the list comes back shorter |
| CodecProofs.DecodeIsApplyRecords | internal/protocol/codec_proto.go:207-235 | decoding a concatenation of records applies them one by one |
| CodecProofs.DecodesFieldByField | internal/protocol/codec_proto.go:207-235 | each field's result is the fold of its own records alone, and decoding fails exactly when some record cannot be applied |
| CodecProofs.SameRecordsPerField | internal/protocol/codec_proto.go:207-235 | two streams with the same records for each known field, in any interleaving and with any unknown fields between, decode alike |
| CodecNesting.AlikeDecodesAlike | internal/protocol/codec_proto.go:191-333 | the same at any depth: messages whose fields have the same records, or records of nested messages that are alike in turn, decode to the same value |
| CodecNesting.UnknownFieldIsAlike | internal/protocol/codec_proto.go:214-222 | an unknown field may be put anywhere into a message without making it unlike |
| CodecNesting.NestedMessagesAreAlike | internal/protocol/codec_proto.go:294-313 | alike messages may replace one another as a nested field, so unknown fields may be added at any depth |
| CodecMethods.MarshalStruct | internal/protocol/codec_proto.go:57-83 | the loop appends exactly the encoding, or fails exactly when a written field has the wrong wire word |
| CodecMethods.MarshalField | internal/protocol/codec_proto.go:86-91 | a zero value appends nothing, any other appends its records |
| CodecMethods.MarshalSingleValue | internal/protocol/codec_proto.go:93-159 | appends the records of one value, nested messages included |
| CodecMethods.MarshalRepeated | internal/protocol/codec_proto.go:162-172 | appends one record per element in order, zero elements included |
| CodecMethods.UnmarshalStruct | internal/protocol/codec_proto.go:191-236 | the loop decodes exactly as the decoding function and ends on every input |
| CodecMethods.UnmarshalSingle | internal/protocol/codec_proto.go:245-319 | decodes one value of any wire type into its target, mismatches failing |
| CodecMethods.UnmarshalRepeated | internal/protocol/codec_proto.go:321-333 | appends one decoded element to the list |
| CodecMethods.SendAndReceive | internal/protocol/codec_proto.go:40-55 | a peer gets the canonical form of what was sent, the same message exactly when it is lossless, or the send fails exactly when it is not encodable |
| CodecMethods.EncodableIff | internal/protocol/codec_proto.go:93-159 | marshalling fails exactly for a written value, at any depth, whose wire word does not suit its kind: varint for flags and integers, fixed64 for floats, bytes for text, blobs and messages |
| CodecBytes.VarintBytes | internal/protocol/codec_proto.go:109-110 | a varint is the number in groups of seven bits, low ones first and none too many, with the top bit on all bytes but the last |
| CodecBytes.FixedBytes | internal/protocol/codec_proto.go:115-116 | a fixed-width number has its bytes in order, the low one first |
| CodecBytes.TagBytes | internal/protocol/codec_proto.go:109-109 | a tag is the varint of eight times the field number plus the wire type |
| CodecBytes.WrittenValue | internal/protocol/codec_proto.go:93-159 | the bytes written for a value of each kind, with literal wire types; negative integers as their 64-bit two's complement; a nil pointer writes nothing |
| CodecBytes.LeftOutIff | internal/protocol/codec_proto.go:357-379 | a singular field is left out exactly for false, zero, either float zero, empty bytes and nil |
| CodecBytes.KeepsLowBits | internal/protocol/codec_proto.go:245-319 | integer fields keep the low 8, 16, 32 or 64 bits of what they read, two's complement if signed |
| CodecBytes.NumberIntoField | internal/protocol/codec_proto.go:247-262 | a varint record sets a known flag or integer field, or is appended to its list, and no other kind of field accepts it |
| CodecBytes.EightBytesIntoField | internal/protocol/codec_proto.go:263-272 | the same for eight bytes and float fields |
| CodecBytes.BytesIntoField | internal/protocol/codec_proto.go:283-300 | the same for length-delimited bytes and text or blob fields |
| CodecBytes.MessageIntoField | internal/protocol/codec_proto.go:294-313 | a nested record is decoded into what the field holds, a fresh message in a list or behind a nil pointer, and fails exactly if that does |
| CodecBytes.OtherTypesIntoField | internal/protocol/codec_proto.go:245-319 | no other wire type is accepted for a known field |
| CodecBytes.UnknownIsSkipped | internal/protocol/codec_proto.go:207-235 | a varint, eight bytes, length-delimited bytes, four bytes or a group of any such fields under a number outside the message, written out with literal wire types, leaves the rest to be decoded as if it were not there, or is refused exactly when its groups nest more than 10001 deep |
| CodecBytes.CutUnknownIsRefused | internal/protocol/codec_proto.go:214-222 | cut anywhere inside, such a field is refused |
| CodecBytes.NoSuchTypeIsRefused | internal/protocol/codec_proto.go:214-222 | an end of a group that was not begun and the two wire types that do not exist are refused |
| CodecBytes.CrossedGroupIsRefused | internal/protocol/codec_proto.go:214-222 | a group that ends with another number's end tag is refused |
| Cards.FullDeck | games/doudizhu/cards.go:7-17 | builds the deck, card by card |
| Cards.DeckOrder | games/doudizhu/cards.go:7-17 | its order and the ids: four suits of 3 to 15 in rising order, then the little and the big joker, 100 times the suit plus the rank and 100, 101 |
| Cards.DeckHolds | games/doudizhu/cards.go:7-17 | the deck holds each of the 54 cards once and nothing else |
| Cards.IdsAreInjective | games/doudizhu/messages.go:69-74 | no two cards of the deck share an id |
| Cards.ShapeIsUnique | games/doudizhu/cards.go:29-94 | a set of cards has at most one declared shape and one deciding rank |
| Cards.HandIsPermutationInvariant | games/doudizhu/cards.go:29-94 | the type and main rank do not depend on the order of the cards |
| Cards.BeatsIsTransitive | games/doudizhu/cards.go:185-206 | beating is transitive; which hand beats which is in the rows below |
| Cards.BeatsIsAsymmetric | games/doudizhu/cards.go:185-206 | of two plays made with different cards of one deck at most one beats the other |
| Cards.RocketIsHighest | games/doudizhu/cards.go:185-206 | both jokers beat every hand, and nothing but both jokers beats them |
| Cards.BombBeatsIff | games/doudizhu/cards.go:185-206 | four of a rank beat every hand but the jokers and four of a rank at least as high |
| Cards.HigherBombWins | games/doudizhu/cards.go:185-206 | of two bombs the one of the higher rank beats the other |
| Cards.PlainBeatsIff | games/doudizhu/cards.go:185-206 | any other hand beats exactly the hands of its own type with as many cards and a lower deciding rank |
| Cards.NoHandBeatsNothing | games/doudizhu/cards.go:185-206 | cards that form no hand beat nothing |
| Cards.SingleBeatsIff | games/doudizhu/cards.go:185-206 | one card beats exactly one card of a lower rank |
| Cards.StraightIff | games/doudizhu/cards.go:115-126 | five or more single cards in a row are a straight exactly when none is above the ace |
| Cards.PlaneIff | games/doudizhu/cards.go:129-151 | two or more triples in a row are a plane, decided by the highest, exactly when none is above the ace |
| Classifier.RankCounts | games/doudizhu/cards.go:20-26 | the map counts each rank, and holds no others |
| Classifier.AllSingles | games/doudizhu/cards.go:96-103 | true exactly when every count is one, over any iteration order |
| Classifier.RanksSorted | games/doudizhu/cards.go:105-112 | the ranks of the map, each once, in increasing order |
| Classifier.IsStraight | games/doudizhu/cards.go:115-126 | true exactly when the singles form a run below the twos |
| Classifier.IsPlane | games/doudizhu/cards.go:129-151 | true exactly when there are at least two consecutive triples and nothing else |
| Classifier.PlaneMainRank | games/doudizhu/cards.go:153-162 | the greatest rank held three times, over any iteration order |
| Classifier.MaxRank | games/doudizhu/cards.go:164-172 | the greatest rank, or zero, over any iteration order |
| Classifier.Classify | games/doudizhu/cards.go:29-94 | for every map iteration order, the type and main rank are those of the declared shape, and invalid exactly when there is none |
| GameRules.TurnArithmetic | games/doudizhu/logic.go:233-314 | after every legal log the turn is the last player's seat plus one plus the passes, and at most one pass stands |
| GameRules.NeverAgainstYourself | games/doudizhu/logic.go:233-314 | nobody is asked to beat their own play |
| GameRules.PlayStands | games/doudizhu/logic.go:255-305 | a play stands until both others have passed: after it and after one pass it is still the play to beat, and the turn is one and two seats on |
| GameRules.LeadReturns | games/doudizhu/logic.go:255-279 | when both others pass, the free lead is back with the player they passed to |
| GameRules.TrickAscends | games/doudizhu/logic.go:285-305 | inside a trick every accepted play beats all earlier plays of that trick |
| GameRules.PassesAreBounded | games/doudizhu/logic.go:233-314 | at most two passes per accepted play |
| GameRules.GameIsFinite | games/doudizhu/logic.go:233-349 | no legal game has more than 162 actions |
| Dealing.Shuffle | games/doudizhu/logic.go:86-110 | the in-place loop computes the seeded shuffle, with 64-bit wrap-around of the generator, and leaves the seed advanced once per exchange for the next deal |
| Dealing.ShuffleIsPermutation | games/doudizhu/logic.go:86-110 | whatever the seed, the shuffle is a permutation |
| Dealing.NextIsDrawn | games/doudizhu/logic.go:86-110 | the next draw is the one 64-bit signed number congruent to 1103515245 times the seed plus 12345 |
| Dealing.SlotIs | games/doudizhu/logic.go:86-110 | the slot is the draw without its low 16 bits, taken as unsigned, modulo the slots left |
| Dealing.FisherYates | games/doudizhu/logic.go:86-110 | the shuffle is the one run of exchanges from the top slot down that these draws determine, and so is the seed it leaves |
| Dealing.CardGoesTo | games/doudizhu/logic.go:86-110 | card n goes to seat n mod 3, as its n div 3-th |
| Dealing.DealSorted | games/doudizhu/logic.go:86-110 | each hand is every third card of the shuffled deck, sorted; the bottom cards are its last three |
| Dealing.DealIsPartition | games/doudizhu/logic.go:86-110 | the three hands and the bottom cards are the whole deck |
| Dealing.SortHand | games/doudizhu/logic.go:86-110 | the same cards in nondecreasing rank |
| Dealing.TakingSplitsTheHand | games/doudizhu/logic.go:317-337 | the cards taken and the cards kept make up the hand |
| Bidding.CallTakesLead | games/doudizhu/logic.go:168-191 | a call takes the lead exactly when it is legal and higher than every call before it |
| RoomState.MainRankOf | games/doudizhu/cards.go:175-181 | the recomputed main rank is that of the declared shape |
| RoomState.TakeCards | games/doudizhu/logic.go:317-337 | succeeds exactly when every id names a different card of the hand, and then takes those cards; otherwise the hand is as it was |
| RoomState.HandHasDistinctIds | games/doudizhu/logic.go:317-337 | removal by id is unambiguous for any hand from one deck |
| RoomState.PlayKeepsGame | games/doudizhu/logic.go:281-305 | moving chosen cards from hand to table keeps the deck whole and the log legal |
| RoomState.PutBackResult | games/doudizhu/logic.go:281-295 | a refused play leaves the same hands |
| DouDizhu.Room.Deal | games/doudizhu/logic.go:86-110 | three sorted hands of 17 and three bottom cards that together are the deck, each seat holding every third card of the deck shuffled from the room's seed after 53 draws for each earlier deal |
| DouDizhu.Room.StartBidding | games/doudizhu/logic.go:113-121 | ends in a state where a call or a turn is awaited, for every mix of online and offline players |
| DouDizhu.Room.AskBid | games/doudizhu/logic.go:123-134 | arms the timer of an online player with no call made, or calls zero for an offline one, to the end of bidding if need be |
| DouDizhu.Room.RecordCall | games/doudizhu/logic.go:168-185 | the highest legal call so far and its caller stay known |
| DouDizhu.Room.ApplyBid | games/doudizhu/logic.go:168-191 | logs the call, illegal scores counting as zero, and so brings the play stage closer; a call of three ends the bidding at once and makes its caller landlord |
| DouDizhu.Room.FinishBidding | games/doudizhu/logic.go:196-230 | redeals while redeals are left and nobody called, and otherwise begins play with the highest caller as landlord at that score |
| DouDizhu.Room.ChooseLandlord | games/doudizhu/logic.go:196-209 | the landlord is the earliest highest caller, or seat 0 at one point when nobody called in any round |
| DouDizhu.Room.BeginPlay | games/doudizhu/logic.go:208-230 | the landlord, and nobody else, gets the bottom cards and has the first lead; there is no timer exactly when the landlord is answered offline |
| DouDizhu.Room.SeatLandlord | games/doudizhu/logic.go:208-228 | the highest caller becomes landlord at that score and gets exactly the bottom cards, the other hands staying; the three hands are then the whole deck |
| DouDizhu.Room.NextTurn | games/doudizhu/logic.go:233-249 | the recursion with autoplay ends; the log stays as it is while the next player is online, only grows legally otherwise, and reaches the end of the game if nobody is; at the first lead the timer is armed exactly for an online player; after the end neither log nor outcome changes |
| DouDizhu.Room.AutoPlay | games/doudizhu/logic.go:340-349 | plays the smallest card when leading and passes otherwise, except that the very first lead leaves the room as it was |
| DouDizhu.AutoplayIsLowest | games/doudizhu/logic.go:340-349 | autoplay passes on a play, and otherwise leads a card no other in the hand is lower than |
| DouDizhu.Room.ApplyPlay | games/doudizhu/logic.go:255-314 | accepts exactly the allowed plays and logs them; any other leaves turn, table and hands (as cards) unchanged |
| DouDizhu.Room.Finish | games/doudizhu/logic.go:443-481 | the first outcome stands and the timer is gone |
| DouDizhu.Room.OnMessage | games/doudizhu/logic.go:136-165 | a call or play of the player in turn is logged exactly when allowed; a message from anyone else, or meant for the other stage, changes nothing; the room stays valid |
| DouDizhu.Room.OnTurnTimer | games/doudizhu/logic.go:370-380 | for the player in turn it calls zero or makes the autoplay action, for anyone else nothing changes; on a finished room it acts exactly when that player answers a play or has a card to lead, and log and outcome stand |
| DouDizhu.Room.Tick | games/doudizhu/logic.go:390-405 | with no timer and the player in turn offline it calls zero or makes the autoplay action, up to the end of the game if nobody is online from then on; with a timer armed or that player online nothing changes |
| DouDizhu.Room.OnTimeout | games/doudizhu/logic.go:425-440 | ends a game in play, won by the landlord exactly when nobody else holds fewer cards; any other room stays as it is |
| DouDizhu.CardsAreConserved | games/doudizhu/logic.go:86-110 | in every valid room, also after the end, the hands with the bottom cards, or with the plays, are exactly the deck |
| DouDizhu.BiddingIsShort | games/doudizhu/logic.go:168-230 | at most nine calls, eight while bidding goes on; the hands are those of the first deal, of the second after three calls and of the third after six |
| DouDizhu.LandlordCalledHighest | games/doudizhu/logic.go:196-230 | the base score is 1 to 3, and the landlord made the strictly highest first call, or is seat 0 after nine calls of nothing |
| DouDizhu.TurnFollowsLastPlay | games/doudizhu/logic.go:233-314 | with cards on the table the current seat is the last player's plus one plus the passes, of which at most one stands |
| DouDizhu.NoTimerIff | games/doudizhu/logic.go:233-249 | an unfinished room has no timer exactly at the first lead of a landlord who was answered offline as play began |
| DouDizhu.AbsentTableHasNoTimer | games/doudizhu/logic.go:340-349 | witness: for any players and seed, with everybody offline play begins without a timer |
| DouDizhu.AbsentTableEnds | games/doudizhu/logic.go:390-405 | for any players and seed, with everybody offline one tick plays the game to a decided end |
| DouDizhu.EveryEndIsDecided | games/doudizhu/logic.go:425-481 | every finished room in every run has an outcome that its log, or on time its hands at the end, decides |
| DouDizhu.OutcomeFacts | games/doudizhu/logic.go:425-481 | the outcome is the landlord's win exactly when the last action, which emptied its player's hand, was the landlord's, or on time when nobody else held fewer cards; hands at the end and plays are the deck |
| DouDizhu.WinnerIsStillInTurn | games/doudizhu/logic.go:443-481 | after a win the turn is still the winner's, so a timer of theirs queued before will act |
| DouDizhu.PlayToEnd | games/doudizhu/logic.go:136-314 | with everybody online and playing in time the game ends in a win, and the winner has a timer armed as the winning play arrives |
| DouDizhu.QueuedTimerActs | games/doudizhu/logic.go:370-380 | witness: for any players and seed, such a game, won by play, on which the winner's timer then acts |
| DouDizhu.RunRoom | games/doudizhu/logic.go:72-481 | after any list of messages, timers, ticks and time-outs, also past the end, the cards are conserved, the log legal and bounded, and the base score 1 to 3; an end has the outcome its log or the hands decide, and nothing after it changes log or outcome |
| DouDizhu.HandleEvent | games/doudizhu/logic.go:136-440 | any one event keeps the room valid, its log growing, and a finished room's log and outcome as they are |
| BreakerRuns.TableBreaker.AllowWrite | internal/storage/breaker.go:44-59 | admits as the breaker's table of states says, and the probe of an open table whose time is up makes it half-open |
| BreakerRuns.TableBreaker.ReportFailure | internal/storage/breaker.go:63-70 | a failed probe opens the table again; otherwise nothing changes |
| BreakerRuns.TableBreaker.ForceOpen | internal/storage/breaker.go:73-84 | opens the table as of now |
| BreakerRuns.TableBreaker.ReportSuccess | internal/storage/breaker.go:87-92 | closes the table |
| BreakerRuns.TableBreaker.Serve | internal/storage/breaker.go:44-92 | any sequence of calls gives the answers and the state that the breaker's functions give one after another |
| BreakerRuns.OnlyTheFirstDueWriteProbes | internal/storage/breaker.go:44-59 | while an open table is neither reported on nor forced, exactly the first write a cooldown after it opened is let through, whatever happens to other tables |
| BreakerRuns.ProbeDecides | internal/storage/breaker.go:44-92 | a half-open table refuses; its probe's success admits every write, its failure none for a full cooldown |
| StoreProofs.NoAcceptedWriteIsLost | internal/storage/managed.go:152-184 | under every interleaving and every failure, a write reported as stored is in the queue, in the batch, in the log, applied, or dead-lettered |
| StoreProofs.DeadLetterIsLastResort | internal/storage/managed.go:240-284 | it is dead-lettered only after the backend refused it MaxRetry+1 times and the log refused it or is off (what that does to its table: the rows of `StoreTrips`) |
| StoreTrips.RefusedForCooldown | internal/storage/breaker.go:44-92 | over every run that ends within a cooldown of a table's opening, with no success of it reported, every write of the table is refused |
| StoreTrips.OneOpeningPerBatch | internal/storage/managed.go:270-284 | over every run within the spooling of a batch the worker opens a table exactly once if it gave up a write of it, and never otherwise |
| StoreTrips.GivenUpIsOpened | internal/storage/managed.go:270-284 | once the trips are made, a table was opened exactly once if a write of it was dead-lettered in the batch, and not at all otherwise |
| StoreTrips.DeadLetterClosesTheDoor | internal/storage/managed.go:270-284 | a dead-lettered batch write has a moment at which its table opens, from which for a cooldown every write of it is refused unless a success of it is reported |
| StoreTrips.SpillOpensTable | internal/storage/managed.go:168-184 | a call that found the queue full and the log failing dead-letters its write, and can only go on to open the table |
| StoreOrder.QueueAndBatchAreBounded | internal/storage/managed.go:205-255 | in every run the queue holds at most its size, a batch at most MaxBatch records, and no pass is beyond the last retry |
| StoreOrder.FirstInFirstOffered | internal/storage/managed.go:152-255 | from any state over every run, writes in hand and in the queue and those queued since are offered to the backend for the first time in exactly this order |
| StoreOrder.BackendSeesQueueOrder | internal/storage/managed.go:152-255 | from the start, the backend has been offered the queued writes in order, none left out, and lags by no more than a queue and a batch |
| StoreProofs.HalfOpenHasPendingWrite | internal/storage/managed.go:240-319 | a half-open table always has a write still on its way, so it cannot stay half-open once its writes have drained |
| StoreProofs.OneProbePerEpisode | internal/storage/breaker.go:44-59 | from the step that makes a table half-open to the end of the episode exactly one write is admitted |
| StoreProofs.OnlyAdmissionHalfOpens | internal/storage/breaker.go:44-92 | no step but an admission makes a table half-open |
| StoreWaiting.PassEmptiesTheLogIff | internal/storage/wal.go:82-124 | whatever callers do meanwhile, a replay pass empties the log exactly when the backend takes every record and the file is cut, and otherwise leaves it as it was |
| StoreWaiting.PassClosesTheTableIff | internal/storage/wal.go:82-124 | whatever callers do meanwhile, a pass closes a half-open table exactly when it takes a record of it, and otherwise leaves it half-open, unless a call dead-lettered before the pass opens it |
| StoreWaiting.HalfOpenUntilTaken | internal/storage/managed.go:152-319 | over every run, once all pending writes of a half-open table are in the log it stays half-open and admits nothing until the backend takes one of those records |
| StoreReplay.LogIsCutOnlyWhenApplied | internal/storage/wal.go:82-124 | in every run only the end of a pass shortens the log, and then every record in it was applied |
| StoreReplay.ProbeCanWaitBehindRefusedHead | internal/storage/managed.go:240-319 | witness: a run from the start that ends with a half-open table whose probe is in the log behind a refused record of another table |
| StoreWaiting.RefusedHeadBlocksTheLog | internal/storage/wal.go:82-124 | over every run, as long as the backend refuses the first record every record stays in the log, and a half-open table whose writes are all there stays half-open |
| StoreWaiting.TicksChangeNothing | internal/storage/wal.go:82-124 | such a run exists for any number of ticks, and leaves the store as it was |
| SessionProofs.ReleasedAtMostOnce | internal/session/manager.go:229-299 | under every interleaving each session is released at most once, and the uid index never holds a released one |
| SessionProofs.GaugeIsExactWhenQuiet | internal/session/manager.go:116-136 | with no call in progress `online_sessions` is the size of the uid index |
| SessionProofs.TokensAreRedeemedOnce | internal/session/conn_session.go:134-142 | under every interleaving each token value buys at most one reconnection |
| SessionTokens.TokenIndexWhenQuiet | internal/session/manager.go:116-299 | under every interleaving, once no call is in progress every registered session is found by its current token, and every indexed token is the current one of its session |
| SessionTokens.IndexIsExactWithoutReconnects | internal/session/manager.go:98-136 | without reconnections the indexed tokens are then exactly those of the registered sessions |
| SessionProofs.ReleasedSessionCanComeBack | internal/session/session.go:141-150 | from any offline registered session there is an interleaving of a sweep and a reconnect that ends with it released, online and out of the uid index |
| SessionProofs.ComesBackIff | internal/session/manager.go:172-200 | some run brings a released session back online exactly when, now, a reconnect is about to bind it, to redeem its current token or to index that token, or the token is still in the index |
| SessionProofs.ReleasedTokenCanStayIndexed | internal/session/manager.go:187-189 | witness: from any offline registered session, a sweep and a reconnect that index its new token after its release, with both calls ended |
| SessionProofs.QuietRegistryCanHoldReleasedToken | internal/session/manager.go:187-189 | witness from an empty registry: every call ended, the one session released once, and a reconnect would bring it back |
| SessionProofs.StaysReleasedIff | internal/session/session.go:141-187 | over any run nothing but a bind ends the released state of a session, and nothing releases it a second time |
| SessionManager.Manager.Create | internal/session/manager.go:116-136 | the uid's session is the new one, the replaced one is released once, and all three indexes agree |
| SessionManager.Manager.Destroy | internal/session/manager.go:229-245 | a registered session leaves all three indexes, is marked released and reported once; one that is no longer registered is left alone |
| SessionManager.Candidates | internal/session/manager.go:98-106 | the registered sessions that have lapsed, each once (when that is, over whole runs: `SessionRuns.SweptIff`) |
| SessionManager.Manager.Sweep | internal/session/manager.go:98-112 | exactly those leave the uid index, are marked released and are reported, each once, and the count returned is how many (when that is, over whole runs: `SessionRuns.SweptIff`) |
| SessionManager.Manager.DestroyAll | internal/session/manager.go:107-112 | the sessions of the given uids leave the uid index, are marked released and reported, each once |
| SessionManager.Manager.MarkOfflineConn | internal/session/manager.go:154-168 | takes a session offline exactly when it still uses that connection, and otherwise changes nothing |
| SessionManager.Manager.Reconnect | internal/session/manager.go:172-200 | succeeds exactly for a current token, which is used up; the session is online on the new connection with a new token, and all three indexes agree |
| SessionRuns.SweptIff | internal/session/manager.go:98-112 | over any requests, somebody offline since a moment who neither returns nor logs in anew stays registered exactly when no sweep came a grace period or more after that moment |
| SessionRuns.OnlineIsKept | internal/session/manager.go:98-106 | somebody online whose connection does not end is never swept, whatever the times |
| SessionRuns.Serve | internal/session/manager.go:98-200 | the manager, from the start and over any list of logins, hang-ups, returns and sweeps, has exactly the sessions of that account |
| SessionRuns.GraceIsExact | internal/session/manager.go:98-112 | a login, a hang-up at one time and a sweep at another leave the session registered exactly when less than the grace period lies between |
| Replay.RingBuffer.Push | internal/session/replay.go:25-34 | the buffer holds the newest frames up to its capacity, in order |
| Replay.RingBuffer.OldestSeq | internal/session/replay.go:37-42 | the number of the oldest frame held, or zero |
| Replay.RingBuffer.Since | internal/session/replay.go:48-62 | the frames above the client's number in order, or an overflow when the oldest is beyond its successor |
| Replay.ReplayIsExact | internal/session/replay.go:48-62 | before the numbers wrap, for any claim: an overflow exactly when a frame after it is gone or the claim is the largest word, and otherwise exactly the frames after it |
| Replay.Downlink.PushReliable | internal/session/session.go:271-297 | frames are numbered consecutively as 32-bit words and appended to the history |
| Replay.Downlink.Replay | internal/session/session.go:315-324 | below 2^32-1 pushes, exactly the missed frames in order, or an overflow exactly when more than the capacity was pushed since |
| Replay.Downlink.PushSnapshot | internal/session/session.go:278-282 | the newest snapshot of its message id replaces the one before |
| Replay.LatestIs | internal/session/replay.go:68-80 | the newest snapshot of an id is the one after which no other of that id came |
| Replay.LatestNone | internal/session/replay.go:68-80 | there is none exactly if none of that id was pushed |
| Replay.LatestInTurn | internal/session/replay.go:81-96 | the snapshots of several ids follow one another in the order named |
| Replay.Downlink.Snapshots | internal/session/replay.go:81-96 | the newest snapshot of each named message that has one, in the order named; naming none gives that of every message that has one, each once |
| TimerHeap.Up | internal/timer/scheduler.go:24-40 | a task rises until the heap order holds, each task's slot number following it |
| TimerHeap.Down | internal/timer/scheduler.go:24-40 | a task sinks until the heap order holds below it, and says whether it moved |
| TimerHeap.Push | internal/timer/scheduler.go:36-40 | adds one task; heap order and slot numbers hold |
| TimerHeap.Pop | internal/timer/scheduler.go:42-50 | takes out the first task and sets its slot to -1; heap order and slot numbers hold |
| TimerHeap.Remove | internal/timer/scheduler.go:215-217 | takes out the task of any slot; heap order and slot numbers hold |
| TimerHeap.FirstIsEarliest | internal/timer/scheduler.go:28-28 | the first slot is the earliest of all |
| Timers.Extract | internal/timer/scheduler.go:171-180 | takes out exactly the tasks due by now, in nondecreasing fire time, each once |
| Timers.Scheduler.Add | internal/timer/scheduler.go:100-124 | arms one more task, or gives a cancelled one when closed; wakes the loop exactly when the new task fires strictly before every other |
| Timers.Scheduler.Arm | internal/timer/scheduler.go:113-124 | a task joins the heap and says whether it is now strictly the first |
| Timers.Scheduler.Cancel | internal/timer/scheduler.go:208-218 | the task leaves the heap at once and nothing else does; a cancelled task is never in the heap |
| Timers.Scheduler.Rearm | internal/timer/scheduler.go:191-201 | the task is back with its new time unless it was cancelled or the scheduler closed |
| Timers.Scheduler.Close | internal/timer/scheduler.go:127-136 | the scheduler is closed, and armed tasks stay where they are |
| Timers.Scheduler.Perform | internal/timer/scheduler.go:100-218 | whatever a callback adds is armed unless the scheduler is closed, whatever it cancels is not, and exactly the named tasks are cancelled |
| Timers.Scheduler.Fire | internal/timer/scheduler.go:183-201 | a fired periodic task is armed again one interval on, unless its callback cancelled it or the scheduler is closed; other tasks keep their times |
| Timers.Scheduler.TakeDue | internal/timer/scheduler.go:171-180 | the due tasks, in order, leave the heap |
| Timers.Scheduler.Pass | internal/timer/scheduler.go:171-188 | a pass fires exactly the due tasks in order, while callbacks add and cancel tasks and may close the scheduler; afterwards just the later, the added and the periodic tasks fired before closing that are not cancelled are armed, the last one interval on; a task fires cancelled or on a closed scheduler exactly when an earlier callback of the pass did that or it was closed before |
| Timers.ArmedIff | internal/timer/scheduler.go:171-201 | who is armed after a pass: not cancelled, and armed before without being due, or periodic and fired before any closing, or new |
| TimerRuns.ServeAll | internal/timer/scheduler.go:100-218 | from the start, over any list of additions, cancellations, passes and closing, each pass fires exactly the tasks due by an account that keeps only their next times, each once, in order of time |
| TimerRuns.FiresOnTime | internal/timer/scheduler.go:171-188 | a task left alone fires at the first pass at or after its time, and not before |
| TimerRuns.FiresEveryInterval | internal/timer/scheduler.go:183-201 | a periodic task that fired at some time fires next at the first pass one interval later or more |
| TimerRuns.NeverAgain | internal/timer/scheduler.go:183-218 | a cancelled task, and one that fired without being periodic or on a closed scheduler, never fires again |
| Timers.CancelledTaskFires | internal/timer/scheduler.go:126-136 | witness: a task whose cancellation and whose scheduler's closing precede its callback in one pass fires all the same |
| Routes.RouteIsInReverseSet | internal/gateway/route_redis.go:29-60 | in every state of every run a live route is in its node's live reverse set |
| Routes.InvalidateMissesNoRoute | internal/gateway/route_redis.go:153-176 | taking a node down leaves no route to it |
| Routes.StaleUnbindKeepsRoutes | internal/gateway/route_redis.go:48-60 | a release removes the route exactly when the releasing node still owns it, and touches no other (what lookups then answer: `Routes.ReleaseIsSeen`) |
| Routes.ReleaseIsSeen | internal/gateway/route_redis.go:103-150 | after a release by the owner a lookup of the uid finds nothing, after one by another node it finds the stored route, and other uids are found as before |
| Routes.ReleasedComesBackIff | internal/gateway/route_redis.go:103-150 | over every run after a release by the owner in which nobody binds the uid, lookups find it again if and only if, at the release, a lookup younger than three seconds had read it and not yet cached it |
| Routes.BindIsSeen | internal/gateway/route_redis.go:29-125 | in every run, from three seconds after a bind until its time is up, lookups find the new node, unless the uid is bound again, released or in the set of a node taken down |
| Routes.ForeignRouteSurvivesIff | internal/gateway/route_redis.go:153-166 | another node's route survives exactly when its uid is not in the reverse set of the node taken down |
| Routes.StepKeepsExactIff | internal/gateway/route_redis.go:29-60 | reverse sets stay exact in every step but a tick in which a route runs out before its node's set |
| Routes.NoLingeringNoLoss | internal/gateway/route_redis.go:153-176 | in a run without such a tick, taking a node down removes exactly the routes to it |
| Routes.ForeignRouteCanBeRemoved | internal/gateway/route_redis.go:153-166 | witness: for any lifetime of two seconds or more, a run in which taking one node down removes the route of another |
| Routes.HitIsRecent | internal/gateway/route_redis.go:103-125 | a cache hit gives a route that held at some moment within the last three seconds, though the cache write may come any time after the read |
| Routes.ComesBackIff | internal/gateway/route_redis.go:103-176 | after a node is taken down, some run without a bind to it makes lookups answer with it again exactly when a lookup younger than three seconds has read it and not yet cached it |
| Routes.GoneUntilBound | internal/gateway/route_redis.go:103-182 | a node that no route, cache entry or unfinished lookup names is named by none over any run until somebody is bound to it |
| Routes.LateFillRevivesNode | internal/gateway/route_redis.go:112-123 | witness: a lookup whose cache write comes after the node was taken down puts the node back into the cache |
| RouteTable.Table.Bind | internal/gateway/route_redis.go:29-44 | the script's reads and writes amount to the bind step |
| RouteTable.Table.Unbind | internal/gateway/route_redis.go:142-150 | the script and the eviction amount to the unbind step; the uid is out of the cache, and out of the routes if the node owned it |
| RouteTable.LookupAfterRelease | internal/gateway/route_redis.go:103-150 | a lookup right after a release by the owner is answered with nothing, and not from the cache |
| RouteTable.Table.Invalidate | internal/gateway/route_redis.go:153-176 | the two loops amount to the invalidate step |
| RouteTable.Table.BeginLookup | internal/gateway/route_redis.go:103-119 | a fresh cache entry is answered as it is, anything else amounts to the read step |
| RouteTable.Table.EndLookup | internal/gateway/route_redis.go:121-124 | the cache write amounts to the fill step, as of when the lookup began |
| Frames.EncodeFrame | internal/transport/frame.go:63-100 | writes the layout of the frame with the route bit set right, or fails exactly for a route or payload that is too long |
| Frames.DecodeFrame | internal/transport/frame.go:106-160 | reads what the parsing function reads, with the same errors |
| Frames.ParseFrameIff | internal/transport/frame.go:106-160 | the decoder accepts exactly the layouts of well-formed frames within the limit, and leaves the rest of the stream |
| Frames.CutFrameIsShort | internal/transport/frame.go:111-127 | a stream cut anywhere inside a frame is a short read |
| Frames.FrameRoundTrip | internal/transport/frame.go:63-160 | encoding and decoding gives back the frame with the route bit normalised, whatever follows |
| LinkBytes.FrameOnTheWire | internal/transport/frame.go:63-100 | a frame byte by byte: length, version, message id, flag, sequence number, with the flag's top bit the route behind its length, the body; numbers high byte first |
| LinkBytes.RouteBit | internal/transport/frame.go:63-80 | the encoder changes nothing but the flag's top bit, which is set exactly when there is a route |
| LinkBytes.LengthDecides | internal/transport/frame.go:106-130 | a length below 10 is a bad frame, one above the limit, 65536 unless a positive one is given, too large, and a longer one than the stream a short read |
| InnerLink.EncodeInner | internal/gateway/gateway.go:166-176 | writes header line and frame; a frame that cannot be encoded leaves the header alone |
| InnerLink.DecodeInner | internal/gateway/gateway.go:179-217 | the scan and the parse amount to the parsing function, with 8 and 32-bit truncation of the decimal fields |
| LinkBytes.LineOnTheWire | internal/gateway/gateway.go:166-171 | a header line is uid, session and gateway as they are, then type and sequence number in decimal without leading zeros, with bars between |
| LinkBytes.InnerOnTheWire | internal/gateway/gateway.go:166-176 | a newline and the frame follow it, or the newline alone exactly when the frame cannot be encoded |
| LinkBytes.AtoiIff | internal/gateway/gateway.go:195-202 | a number in a header line is accepted exactly if it is an optional sign and digits with a value of 64 bits |
| LinkBytes.LineReads | internal/gateway/gateway.go:191-207 | such a line of clean ids is read as them, with the low byte of the type and the low 32 bits of the sequence number |
| InnerLink.InnerRoundTripIff | internal/gateway/gateway.go:166-217 | a message comes back unchanged, up to the route bit, exactly when its ids are free of bars and newlines and its frame fits |
| InnerLink.OneLineIsNeverMisread | internal/gateway/gateway.go:179-217 | with no newline in any id a message arrives as it was sent or is refused |
| InnerLink.BarInAnIdIsRefused | internal/gateway/gateway.go:191-202 | a message with a bar and no newline in its ids is always refused |
| InnerLink.MisreadIff | internal/gateway/gateway.go:179-217 | a message is taken for another one exactly when its ids hold a newline with a complete header line before it and a frame right after it |
| InnerLink.EmbeddedMessageIsMisread | internal/gateway/gateway.go:179-217 | witness: a uid made of any clean header line, a newline and any frame arrives as that frame under that header |
| NodeLink.OneEnvelope | internal/gateway/node_transport.go:420-434 | an envelope is read as its inner message is, whatever follows, and a refused one ends the stream |
| LinkBytes.EnvelopeOnTheWire | internal/gateway/node_transport.go:528-537 | an envelope is the length of the data in four bytes, high byte first, and the data |
| LinkBytes.EnvelopeReads | internal/gateway/node_transport.go:420-434 | an empty envelope is refused, one cut short is a short read, any other is read as the inner message it holds |
| LinkBytes.KeepalivesStopHere | internal/gateway/node_transport.go:400-417 | a message of type 3 is handed to nobody, and every other that survives the link is handed on |
| NodeLink.ArrivalsAre | internal/gateway/node_transport.go:386-417 | messages that survive the link arrive as sent, in order, and the first refused one ends it |
| NodeLink.CutEnvelopeIsShort | internal/gateway/node_transport.go:420-434 | a stream cut inside an envelope is a short read |
| NodeLink.CutStreamGivesPrefix | internal/gateway/node_transport.go:386-434 | wherever the stream of any list of messages is cut, exactly what the complete envelopes give, up to the first refused one, is handed on, in order |
| NodeLink.WriteLoop | internal/gateway/node_transport.go:555-607 | for every schedule of arrivals, timer, shutdown and write errors: one envelope is taken for each request until the queue is empty or the loop stopped, the bytes written are whole envelopes of a prefix of the queue, up to a first failed write, several envelopes are never held back beyond 4096 bytes, and without the timer nothing is written below that |
| NodeLink.ReadAll | internal/gateway/node_transport.go:386-417 | hands on the messages up to the end of the stream or the first fault, without keepalives |
| NodeLink.Transfer | internal/gateway/node_transport.go:529-607 | end to end, whatever the batching, the receiver gets the sent messages in order up to the first it refuses: those flushed, and after a failed write possibly more of that batch |
| MatchProofs.ExactlyOneFate | internal/match/match.go:59-137 | in every run each accepted request is in exactly one place: in line, cancelled, or at one seat of one table |
| MatchProofs.FirstComeFirstServed | internal/match/match.go:70-84 | in every run the tables of a key seat its players in order of arrival, before anyone still in line |
| MatchProofs.QueueIsConsistent | internal/match/match.go:59-137 | with one table size per key the uid index names exactly the players in line, no line is as long as a table, and every table is full and seats nobody twice |
| MatchLaws.SameLineIff | internal/match/match.go:146-147 | requests whose games hold no bar share a line exactly when game and code are the same |
| MatchLaws.BarSharesLine | internal/match/match.go:146-147 | witness: with a bar in a game name players of two games share a line |
| MatchLaws.JoinIsHeard | internal/match/match.go:59-88 | in every run with one table size per key a request is accepted, once and as it was made, exactly when it names a game and at least one player and its uid is in no line; otherwise nothing changes |
| MatchLaws.LeaveIsHeard | internal/match/match.go:121-137 | in every such run a player who waits is in no line afterwards and is recorded as cancelled, once; for any other nothing changes |
| MatchLaws.WaitsOrLeftOrSeated | internal/match/match.go:59-137 | in every run an accepted request is sound and is waiting in its line, cancelled or seated, and only one of these |
| MatchProofs.JoinKeepsIndexIff | internal/match/match.go:70-84 | a request keeps the index right exactly when the line with it is not longer than the table it asks for |
| MatchProofs.JoinBreaksIndex | internal/match/match.go:77-84 | otherwise the newcomer stays in line without being in the index |
| MatchProofs.MixedSizesBreakIndex | internal/match/match.go:59-88 | witness: from the empty queue, a request for three and then one for a table of one leave the second player in line outside the index |
| MatchMaker.Maker.Enqueue | internal/match/match.go:59-88 | appending in place or to a new array, and cutting a table off, does to the slices what the queue does as a value, and disturbs no earlier table |
| MatchMaker.Maker.Cancel | internal/match/match.go:121-137 | cutting a player out in place does what the queue does as a value, and disturbs no table |
| MatchMaker.Maker.Settle | internal/match/match.go:92-118 | at any later time the players told are those the table was formed with, each once, all with the same outcome; on failure nobody of a table without repeats is left in the room |
| MatchMaker.RollBack | internal/match/match.go:99-110 | everybody who had joined leaves again exactly when no earlier seat has the failing seat's uid |
| MatchMaker.RunMatches | internal/match/match.go:59-118 | over any run with one table size per key, each table's players are told the same outcome once, and a table that fails leaves nobody in its room |

## Left out

- Sockets, WebSocket, TLS, HTTP administration, configuration, metrics text and the bench bots: input and output without a deep property.
- `Store.Close`, file offsets, fsync and the JSON text of log records: the log is a list of records whose append is all or nothing.
- The order of writes to one key once one is retried or spilled: that may reorder them, so order is stated for first offers to the backend only.
- CodecRoundTrip.RoundTripIsIdentityIff: a nil slice and an empty one are the same value, as are nil and empty byte strings, so it does not say that an empty one may come back nil or the other way round.
- Float32 fields, map fields, packed lists, fields without a tag and malformed tags in the codec.
- At the granularity of lock sections: the connection index and the session's online flag. `SessionManager` states them with whole calls as steps; there a login destroys the replaced session before it enters the new one, which leaves the same state as the code's order.
- `MarkOffline` without a connection id, heartbeats, profiles and the immediate send of a pushed frame.
- `OnLeave`, broadcasts, scores and the wall clock of the Dou Dizhu room: a timer is a step that may come at any time, and leaving ends the run.
- `Invalidate` as several Redis commands, routes with different lifetimes, and uids that begin with "node:", whose keys would collide with the reverse sets.
- The other games, the actor engine, the registries, the Redis matcher and the SQL backends.
- SessionRuns.Serve: hang-ups at time zero are left out, because the source stores zero for "online".
- MatchLaws.JoinIsHeard: stated for one table size per key; with mixed sizes the uid index can be wrong (`JoinKeepsIndexIff`).
- MatchLaws.LeaveIsHeard: likewise stated for one table size per key.
- TimerRuns.ServeAll: its callbacks leave the scheduler alone; what a callback may do in a pass is in `Timers.Scheduler.Pass`.
- Replay.Downlink.Replay: says nothing once 2^32-1 frames were pushed, when the 32-bit numbers wrap and the source promises nothing.
- Dealing.SortHand: does not say how cards of equal rank are ordered, because the source's sort is not stable.
- TimerHeap.Push: the heap is a sequence handed from call to call, so sharing of the slice's backing array is not modelled.
- DouDizhu.Room.Finish: does not model the scores sent to the players.
- NodeLink.Transfer: assumes inner messages below 4 GB, the reach of the length prefix.
- MatchMaker.Maker.Settle: the room manager's answers are parameters; what a room does with its members is not modelled.
