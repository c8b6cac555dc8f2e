# Verification of the chat service

Dafny models of the parts of the chat service that are hard to get right by reading, with proofs about
them. `dafny verify dfyconfig.toml` checks everything.

Strings are Go strings: sequences of bytes (`Bytes`). Times are integers in milliseconds. Where the
source changes state in place, the model is a class whose methods are proved against specification
functions; lemmas then reason about those functions and about whole runs. Where goroutines interleave,
the model is a step machine: a region under one lock is one step, everything else is a step of its own.

| module | models |
|---|---|
| `Hub` | the sharded hub, as a class over 64 shards that refines a flat map from room to clients |
| `Streams` | one pod as a step machine: stream handlers, their sender goroutines, the hub under its locks, broadcasts that enqueue one client at a time, the broker's registry |
| `StreamSafety`, `StreamBroadcasts`, `StreamQueues`, `StreamAccounting`, `StreamSubscriptions`, `StreamRelease` | what every run of that machine keeps: closing, whom a broadcast reaches, queues, counters, subscriptions, release |
| `Slices`, `KafkaBroker` | the Kafka broker's lists of channels over shared backing arrays |
| `KafkaDispatch` | one turn of the Kafka dispatcher while the list is changed under it |
| `Delivery` | one room across pods, over any broker |
| `RoomIdentity`, `RoomAliases`, `RoomStore` | canonical room ids, the ids history is looked up under, get-or-create of DM rooms |
| `Paging` | history queries and the client's cursor loop |
| `Inbox` | the two-source merge of a user's rooms |
| `Unread` | the unread flag from one activity row and one read cursor |
| `Groups` | membership, the member count and ownership |
| `Lifecycle` | sending, editing and deleting, broadcasts against the store |
| `Presence` | the presence key and its expiry |

## What turned out conditional

Each of these is proved with its exact condition, or with a run that shows the failure.

- The service's README, line 88, calls live delivery at-most-once. A broker that hands a publish to every subscription also
  hands it back to the publishing pod, so its clients are offered every message twice
  (`Delivery.FanOutToAll`), unless the pod had no live subscription (`Delivery.FanOutExact`).
- A Redis subscription ends with the context of the client that made it. A room that outlives that client is
  deaf to other pods until it empties (`StreamSubscriptions.StaysOpenIff`, `Delivery.OrphanedClientMisses`).
- The service's README, line 326, has the handler unregister when the stream ends. The handler waits for its sender
  goroutine first, and that ends only on a failed send, so a dead client with nothing queued is kept
  (`StreamRelease.IdleStreamKept`).
- The service's README, line 398, says the heartbeat keeps a user online while a stream is open. With two streams the
  first to close ends that for both (`Presence.BeatsDoNotRevive`).
- The service's README, line 165, promises one room per pair, in any order. That holds; that different pairs get different
  rooms fails exactly when one sorted pair is the other cut again at a later colon
  (`RoomStore.SecondPairGetsFirstIff`).
- A failed Redis read counts as an absent room, so an existing room can be overwritten
  (`RoomStore.RoomKeptIff`).
- One pass of the room-id normaliser is not always a fixed point (`RoomIdentity.NormalizeIdempotentIff`),
  and the inbox normalises the rows of its two sources a different number of times (`Inbox.SourcesMeetIff`).
- The comment above `roomIDAliases` promises unsorted forms; the unsorted `dm:` form is not among them
  (`RoomAliases.SpellingReachableIff`).
- The Kafka dispatcher walks its slice after releasing the lock: when that ends the process is said for every
  interleaving (`KafkaDispatch.PanicIff`, `KafkaDispatch.SingleChannelRace`).
- History is read back whole iff no timestamp tie straddles a page edge and no page but the last ends at time
  0, which as a cursor asks for the first page again (`Paging.ReadsWholeIff`, `Paging.UnstampedNeverEnds`).
- The unread flag is right if messages are applied in time order and cursors are, with no order between the
  two (`Unread.FlagRefinesLog`); exactly when it is right throughout a mixed run is said event by event
  (`Unread.FlagRightThroughoutIff`).
- Unique ownership and the agreement of replay and history hold iff each operation passes a guard
  (`Groups.OwnershipIff`, `Lifecycle.LiveViewAgreesIff`); transfers that race leave several owners
  (`Groups.RacingTransfers`).

## Model

| member | source | states |
|---|---|---|
| `Hub.ShardIndex` | app/chat/hub.go:79-87 | the shard loop computes the 32-bit FNV-1a fold of all bytes, modulo 64, and the index is in range for every id |
| `Hub.FnvTestVector` | app/chat/hub.go:79-87 | the fold gives the hash draft-eastlake-fnv publishes for "a", 0xE40C292C, hence shard 44 |
| `Hub.ShardedPut` | app/chat/hub.go:92-100 | replacing one room in its shard replaces exactly that room of the flat hub: every room still lives in the one shard its id hashes to |
| `Hub.ShardedDrop` | app/chat/hub.go:115 | removing one room from its shard removes exactly that room of the flat hub |
| `Hub.ShardedHub.constructor` | app/chat/hub.go:61-74 | an empty hub refines the empty flat map |
| `Hub.ShardedHub.Register` | app/chat/hub.go:89-103 | on the flat map the client joins its room and nothing else changes; a subscription is taken out iff the room did not exist; the counter grows by one |
| `Hub.ShardedHub.Unregister` | app/chat/hub.go:105-120 | the client leaves its room, the queue is closed iff the room was found, the room and its subscription go iff that was the last client, the counter falls even when the room is missing |
| `StreamAccounting.FullUntilUncount` | app/chat/hub.go:124-126 | what the capacity check is for: from a state where it says full, no run admits anybody or stops being full until some stream is uncounted |
| `Hub.ShardedHub.Broadcast` | app/chat/hub.go:131-149 | every queue of the room below 256 takes the message at its end, full ones are unchanged, no other queue is touched, only clients registered for the room get it, and the message is published iff asked |
| `Hub.ShardedHub.ForwardFromBroker` | app/chat/hub.go:151-161 | what comes from the broker is delivered the same way and never published again |
| `Hub.OtherRoomsUntouched` | app/chat/hub.go:40-120 | register and unregister leave every other room as it was, in the same shard or another |
| `Hub.UnregisterUndoesRegister` | app/chat/hub.go:89-120 | leaving undoes joining on the whole map, including removal of the room it created |
| `StreamSafety.StepsMoveFlatHub` | app/chat/hub.go:89-120 | the step machine moves its rooms by the same flat-hub functions the sharded class is proved against, and no other action moves them |
| `StreamSafety.SafeStep` | app/chat/hub.go:89-149 | every enabled action of any goroutine keeps: rooms hold exactly the registered streams, no room is empty, a queue is closed once and only when its stream has left, a broadcast under way visits only clients still in its room, nothing panicked |
| `StreamSafety.NoSendOnClosed` | app/chat/hub.go:89-149 | in every state of every interleaving no send hits a closed queue, every registered client's queue is open, and no queue is closed twice |
| `StreamBroadcasts.BroadcastReachesRoom` | app/chat/hub.go:131-143 | every run before a broadcast and every run after its begin: at any state after its end its message has been offered exactly once to every stream that was a client of the room when it began, and never to another |
| `StreamBroadcasts.BroadcastCanReachRoom` | app/chat/hub.go:131-143 | from any reachable state an idle broadcaster can begin a broadcast to any room and finish it by its own steps alone |
| `StreamBroadcasts.CanTakeAll` | app/server/grpc_server.go:109-122 | the sender of a connected stream can send all that is queued, in the order of the queue |
| `StreamQueues.ConservationAndOrder` | app/chat/hub.go:131-143 | for every client in every run: taken + queued + dropped = offered, at most 256 are queued, what comes through is the offers with drops left out, and of each sequential broadcaster it is a subsequence of that broadcaster's own order whatever the others do |
| `StreamQueues.DropsAreFullOffers` | app/chat/hub.go:136-140 | over every run a client has lost exactly as many messages as were offered to it with 256 in its queue |
| `StreamAccounting.CounterLaw` | app/chat/hub.go:100-119 | in every state connCnt = sum of all room sizes - registered not yet counted + unregistered not yet uncounted |
| `StreamAccounting.PartitionTotal` | app/chat/hub.go:42-50 | room sizes add up to the number of streams the rooms partition |
| `StreamAccounting.CapacityBound` | app/server/grpc_server.go:55-76 | with a limit and at most k streams between the capacity check and the count, connCnt <= maxConns + k - 1 throughout |
| `StreamAccounting.CapacityBoundAttained` | app/server/grpc_server.go:55-76 | for every limit and every k >= 1 there is a run with at most k in flight that reaches maxConns + k - 1, so the bound cannot be improved |
| `StreamSubscriptions.OneChannelPerRoom` | app/chat/hub.go:91-117 | in every state a room exists iff it has a client iff the broker lists exactly one channel for it; the channel is open if the broker ignores contexts or the first client's context lives |
| `StreamSubscriptions.StaysOpenIff` | app/broker/redis_broker.go:56-77 | exactly when an open subscription is safe, at any state of any run: in every continuation in which the room keeps a client and the owner is not disconnected it stays open iff the broker ignores contexts or the stream that made it is still connected |
| `StreamSubscriptions.DeafUntilEmpty` | app/broker/redis_broker.go:56-77 | a room whose subscription ended stays without one in every continuation in which it keeps a client |
| `StreamSubscriptions.FirstContextEndsSubscription` | app/broker/redis_broker.go:56-77 | with a context-bound broker there is a run that leaves a live client in a room without subscription |
| `StreamRelease.ReturnsOnlyAfterFailedSend` | app/server/grpc_server.go:85-139 | in every run a handler that unregistered did so after a failed stream send |
| `StreamRelease.IdleStreamKept` | app/server/grpc_server.go:107-139 | a stream with an empty queue stays a client of its room and counted in every continuation that offers it nothing, even after its connection is gone |
| `StreamRelease.ReleasableIff` | app/server/grpc_server.go:107-139 | a waiting stream in a quiet room can be let go without another offer iff its sender has failed or still has something queued |
| `StreamRelease.CanLeave` | app/server/grpc_server.go:85-139 | a serving stream in a quiet room with something queued can go all the way: returned, out of its room, and the counter one lower |
| `StreamRelease.FirstDeadSendFails` | app/server/grpc_server.go:117-136 | where sends on a dead connection fail: in every run a sender takes one item at most after its connection is gone, and has then failed, so that the handler can go |
| `Slices.Position` | app/broker/kafka_broker.go:153-158 | the search finds the first occurrence, or the length when there is none |
| `KafkaBroker.Broker.Append` | app/broker/kafka_broker.go:145 | append writes into the backing array while it has room and into a larger copy otherwise, leaving the old array as it was |
| `KafkaBroker.Broker.Shift` | app/broker/kafka_broker.go:155 | append(list[:i], list[i+1:]...) moves the later cells down in place and leaves the last cell's old value behind |
| `KafkaBroker.Broker.Subscribe` | app/broker/kafka_broker.go:142-147 | a new empty channel joins the end of its room's list; no other list, queue or closed flag changes; the array the list was in is written in place while it has room |
| `KafkaBroker.Broker.Remove` | app/broker/kafka_broker.go:152-158 | the loop removes exactly the first occurrence of its channel, for lists of any length, and says what the old slice then reads |
| `KafkaBroker.Broker.Cancel` | app/broker/kafka_broker.go:148-163 | the cancel removes exactly its own channel keeping the others' order, drops an empty room, closes the channel, and leaves the array shifted under a dispatcher that is still reading it |
| `KafkaBroker.Broker.Dispatch` | app/broker/kafka_broker.go:193-204 | undisturbed, every channel of the room is offered the data once, and no other channel |
| `KafkaBroker.SubscribedWellListed` | app/broker/kafka_broker.go:142-147 | subscribing keeps every listed channel open, listed once and in one room |
| `KafkaBroker.CancelledWellListed` | app/broker/kafka_broker.go:148-163 | so does cancelling, with the cancelled channel no longer open |
| `KafkaDispatch.DispatchAcrossCancel` | app/broker/kafka_broker.go:148-204 | p sends, one cancel, then the other sends, for any list, channel and p: the process dies iff the channel was last and not yet reached, and each other channel was sent to once iff it was last or at most one send was left |
| `KafkaDispatch.CellsAreOccupants` | app/broker/kafka_broker.go:142-204 | a dispatch turn as a machine: a slice taken, then subscribes, cancels and sends in any order; every cell it reads, and so every channel it has sent to, is the last channel that stood at that position while the room's slice was over the array |
| `KafkaDispatch.PanicIff` | app/broker/kafka_broker.go:142-204 | in every such interleaving the process dies iff some send goes to a position whose last occupant was cancelled since the turn began |
| `KafkaDispatch.SingleChannelRace` | app/broker/kafka_broker.go:193-204 | as the hub uses it, one channel a room: in every interleaving the process dies iff a send follows the cancel of that channel |
| `KafkaDispatch.CanSubscribe` | app/broker/kafka_broker.go:142-147 | at any point of a turn a room can be subscribed to: the channel joins the end of the list and one cell at most changes |
| `KafkaDispatch.NoCancelNoHarm` | app/broker/kafka_broker.go:193-204 | without cancels the dispatcher sends to the channels of its slice in order, whatever is subscribed meanwhile |
| `KafkaDispatch.ListedIsSafe` | app/broker/kafka_broker.go:193-204 | a send at a position the list still has in the array is never to a closed channel |
| `KafkaDispatch.CancelledUnreachedYetSafe` | app/broker/kafka_broker.go:148-204 | a cancel of an unreached channel need not kill: with two channels, cancelling the first serves the second twice |
| `KafkaDispatch.Play` | app/broker/kafka_broker.go:142-204 | the broker itself, on its own arrays, plays every run of the machine: same channels sent to, same panic, same list and closed channels |
| `Delivery.ExactCopies` | app/chat/hub.go:131-161 | the exact count, over any broker, at any state of any run: the local copy on the message's pod, plus the hand-offs to the client's pod that are no longer in flight |
| `Delivery.CopiesBound` | app/chat/hub.go:131-161 | a client that came late or left has had no more than that |
| `Delivery.AtMostTwice` | app/chat/hub.go:131-161 | if the broker hands the message to the client's pod once at most, whenever it does: one copy at most on another pod, two at most on its own |
| `Delivery.NoopAtMostOnce` | app/broker/broker.go:12-20 | under Noop at most one copy, and only on the message's pod |
| `Delivery.FanOutExact` | app/broker/redis_broker.go:49-77 | if every channel live at the publish was handed the message once and no other was, then once nothing of it is in flight: the local copy on the message's own pod, plus one iff some channel of the client's pod was live at the publish |
| `Delivery.FanOutToAll` | app/broker/redis_broker.go:49-77 | where no subscription ends before its room, that is exactly one copy on other pods and exactly two on the message's own |
| `Delivery.OrphanedClientMisses` | app/broker/redis_broker.go:56-77 | a run in which the first client's context ends the subscription of a pod, and a client that is there throughout is never offered a message of another pod |
| `Delivery.EchoGivesTwo` | app/broker/redis_broker.go:49-77 | a run of one client, one pod and one message in which the client is offered it twice |
| `Delivery.DeliveryBalance` | app/chat/hub.go:151-161 | forwarding never republishes: over any broker, publishes and forwards made plus what is left equal what there was plus what was handed out |
| `Delivery.Quiesces` | app/chat/hub.go:145-161 | over a broker that hands a message to a channel once at most, the steps that can follow without new broadcasts are bounded, in any interleaving |
| `Delivery.ComesToRest` | app/chat/hub.go:145-161 | from every state such a broker can come to rest within that bound, with all published and forwarded and every live channel having had every message |
| `Bytes.TrimSpaceSpec` | app/server/grpc_server.go:850 | trimming gives a string without edge white space, keeps exactly those that have none, and shortens every other |
| `Bytes.JoinSplit` | app/server/grpc_server.go:855-858 | joining the parts of a split gives the string back |
| `Bytes.SpacesAreUnicode` | app/server/grpc_server.go:850 | white space is what Unicode calls so, in its UTF-8 encodings of one to three bytes |
| `Bytes.TrimCuts` | app/server/grpc_server.go:850 | trimming takes white space off both ends and nothing else |
| `Bytes.LessIff` | app/server/grpc_server.go:874 | the order of ids on their bytes: the first difference decides, and a proper prefix comes first |
| `RoomIdentity.TrimmedFirst` | app/server/grpc_server.go:850-853 | edge white space never matters |
| `RoomIdentity.PlainKept` | app/server/grpc_server.go:885 | an id that starts with none of dm:, dm-, CONV_, as every group id, loses its edge white space and is otherwise left alone |
| `RoomIdentity.PlainApart` | app/server/grpc_server.go:885 | two such ids stay different iff they were after trimming |
| `RoomIdentity.UnpairedKept` | app/server/grpc_server.go:854-878 | a dm: or dm- id without a second separator is left alone |
| `RoomIdentity.FieldsDecide` | app/server/grpc_server.go:854-878 | with one, it is the canonical id of what stands before and after, unless either begins with nothing |
| `RoomIdentity.LegacyDecides` | app/server/grpc_server.go:879-885 | a CONV_ id is the canonical id of its 36 bytes before the separator and the at least 36 after it, and left alone if it is not of that form |
| `RoomIdentity.CanonicalPrints` | app/chat/room_store.go:54-56 | the canonical id on its bytes, the lesser id first |
| `RoomIdentity.NormalizeIdempotentIff` | app/server/grpc_server.go:849-886 | on all byte strings: a second pass changes nothing iff the input parses to no pair or to a pair that prints as it will be read |
| `RoomIdentity.CanonicalFixedIff` | app/server/grpc_server.go:849-886 | dm:<lo>:<hi> is a fixed point iff the pair is safe to print, for any two non-empty ids |
| `RoomIdentity.NormalizeSettles` | app/server/grpc_server.go:849-886 | on all byte strings repeated passes reach a fixed point |
| `RoomIdentity.SecondPassMoves` | app/server/grpc_server.go:870-878 | a whole family dm:z:y:x on which two passes differ from one |
| `RoomIdentity.OnePassIsNotEnough` | app/server/grpc_server.go:870-878 | dm:c:b:a is one of them |
| `RoomIdentity.CanonicalSymmetric` | app/chat/room_store.go:50-70 | the id of a pair does not depend on the order of its members |
| `RoomIdentity.CanonicalIsFixed` | app/server/grpc_server.go:869-878 | for proper user ids the canonical id normalises to itself |
| `RoomIdentity.ColonFormAgrees` | app/server/grpc_server.go:869-878 | either order of the dm: form normalises to the canonical id |
| `RoomIdentity.CanonicalSharedIff` | app/repository/mongodb.go:234-240 | two pairs of any byte strings share a canonical id iff they are the same pair or one sorted pair is the other cut again at a later colon |
| `RoomIdentity.CanonicalInjective` | app/repository/mongodb.go:234-240 | so two pairs of colon-free ids share one only if they are the same pair |
| `RoomIdentity.DashFormAgreesIff` | app/server/grpc_server.go:855-867 | the dm- form of any two proper ids normalises to the canonical id iff it can be cut back into them |
| `RoomIdentity.DashFormLosesUuids` | app/server/grpc_server.go:855-867 | ids of equal length with a hyphen, as UUIDs have, never survive the dm- form |
| `RoomIdentity.LegacyFormAgreesIff` | app/server/grpc_server.go:879-885 | for any two proper ids the CONV_ form normalises to the canonical id iff the cut after 36 bytes gives the pair back |
| `RoomIdentity.LegacyFormAgrees` | app/server/grpc_server.go:879-885 | so it does for 36-byte ids |
| `RoomAliases.Add` | app/repository/mongodb.go:957-967 | adds the trimmed id once, `seen` being exactly the ids listed |
| `RoomAliases.AddCanonicalDM` | app/repository/mongodb.go:969-979 | adds the canonical id and both legacy orders of a pair, nothing for an empty id |
| `RoomAliases.RoomIDAliases` | app/repository/mongodb.go:950-992 | the imperative construction yields the alias list the lemmas below are about |
| `RoomAliases.AliasesDistinct` | app/repository/mongodb.go:950-992 | no alias is listed twice, for any id |
| `RoomAliases.OwnIdFirst` | app/repository/mongodb.go:951-956 | whatever the id, history written under it as it stands is looked up |
| `RoomAliases.PlainAliases` | app/repository/mongodb.go:951-956 | an id that names no pair has no other alias, and a blank one none at all |
| `RoomAliases.WrittenAliases` | app/repository/mongodb.go:981-985 | a dm: id as written, in either order, is looked up under itself, the canonical id and both CONV_ forms |
| `RoomAliases.LegacyAliases` | app/repository/mongodb.go:986-991 | a CONV_ id of 36-byte ids is looked up under both its orders and the canonical id |
| `RoomAliases.AliasesExact` | app/repository/mongodb.go:950-992 | the aliases of a canonical DM id of any proper ids, exactly and in order |
| `RoomAliases.AliasesSoundIff` | app/repository/mongodb.go:950-992 | for any two proper ids every alias normalises back to the room it was listed for iff both orders of its CONV_ form can be read |
| `RoomAliases.AliasesSound` | app/repository/mongodb.go:950-992 | so it does for 36-byte ids |
| `RoomAliases.AliasesDisjoint` | app/repository/mongodb.go:950-992 | alias sets of different pairs of 36-byte ids have nothing in common |
| `RoomAliases.SpellingReachableIff` | app/repository/mongodb.go:950-992 | the aliases are exactly the sorted dm: form and both legacy orders; the dm: form as written is among them iff it is sorted, though it always normalises to the room |
| `RoomStore.Store.Get` | app/chat/room_store.go:92-111 | the stored room, from Redis if there is one, unless the read fails |
| `RoomStore.Store.Save` | app/chat/room_store.go:113-125 | the room is stored unless Redis fails |
| `RoomStore.Store.CreateDM` | app/chat/room_store.go:50-70 | get-or-create, in Redis or in memory: an error for an empty id, the stored room if it can be read, else a new one stored under the canonical id, or handed back with an error when that fails |
| `RoomStore.CreateIsGetAfterwards` | app/chat/room_store.go:50-70 | asking again from either side returns the first room and changes nothing |
| `RoomStore.RoomKeptIff` | app/chat/room_store.go:57-69 | however many requests follow, of any pairs, a room stays as it is throughout iff none of them gets its id, fails to read it and writes a different one |
| `RoomStore.OtherPairsIff` | app/chat/room_store.go:50-70 | creating one pair's room makes another pair's room exist iff the two share an id; no other room changes |
| `RoomStore.SecondPairGetsFirstIff` | app/chat/room_store.go:50-70 | the second of two new pairs is handed the first pair's room iff they share an id |
| `RoomStore.ColonIdsShareARoom` | app/chat/room_store.go:50-70 | ids with colons do share: {x, y:z} and {x:y, z} are different pairs, and the second is given the room of the first |
| `Paging.GetMessages` | app/server/grpc_server.go:311-335 | a page holds only documents of the room (either id field among its ids), older than a cursor that is given, none more often than stored, newest first, no more than the limit (50 unless it is 1 to 200); all of them if has_more is false, and otherwise exactly the limit and nothing newer left out |
| `Paging.ReadHistory` | app/server/grpc_server.go:305-353 | the cursor loop of a client that may give up, with newer messages arriving between calls, is the function After that the lemmas are about |
| `Paging.FoundCounts` | app/repository/mongodb.go:715-750 | a query finds each document of the room before the cursor exactly as often as it is stored, and no other |
| `Paging.SortSorted` | app/repository/mongodb.go:752-756 | the query order: sorted by created_at then sent_at descending, a permutation of what was found |
| `Paging.FilterSort` | app/repository/mongodb.go:752-756 | filtering before or after sorting is the same |
| `Paging.CursorReads` | app/repository/mongodb.go:728-750 | a query with a cursor other than 0 taken from the history sees exactly the strictly older part of it, whatever has arrived since |
| `Paging.LoopEndsIff` | app/repository/mongodb.go:728-750 | on a store nothing is added to, the loop ends iff no page but the last ends at time 0; otherwise it goes round for ever |
| `Paging.UnstampedNeverEnds` | app/repository/mongodb.go:489-495 | frames without a send time are stored at time 0: a room with more of them than fit on a page is never read to its end |
| `Paging.ReadsWholeIff` | app/repository/mongodb.go:728-750 | the loop finishes having read exactly the history, each message once, iff no two equal times straddle a page edge and no page but the last ends at time 0 |
| `Paging.ReadsWholeWhileGrowingIff` | app/repository/mongodb.go:728-750 | the same while newer messages arrive between any two calls |
| `Paging.ReadBackWholeIff` | app/repository/mongodb.go:728-750 | where a pass reaches its last page, it has read the history iff no tie straddles a page edge |
| `Paging.CallsCount` | app/server/grpc_server.go:315-335 | then it takes max(1, ceil(n / limit)) calls |
| `Paging.DistinctTimesReadWhole` | app/server/grpc_server.go:315-335 | distinct times other than 0 suffice, for every limit and while messages arrive: the loop ends after max(1, ceil(n / limit)) calls with exactly the history |
| `Inbox.Accumulator.AddRoom` | app/server/grpc_server.go:508-532 | one addRoom call: the map and order list go from the pass over the rows so far to the pass over one more; a row without id is skipped |
| `Inbox.GetUserRooms` | app/server/grpc_server.go:499-586 | the listing is the group-by of both sources' rows under their canonical ids, in first-appearance order; and in the sources' own fields: every row and summary is listed, alone under its id exactly as it is with Group iff its id starts with group:, and otherwise with the latest time, that row's preview, unread iff some Postgres row is, and a name and members of some row if any has them |
| `Inbox.InboxShowsSources` | app/server/grpc_server.go:535-579 | so it is for any way of normalising ids that leaves group: alone |
| `Inbox.PassMerges` | app/server/grpc_server.go:508-532 | map and order list after any rows hold exactly the group-by |
| `Inbox.FirstSeenSpec` | app/server/grpc_server.go:531 | the listed ids have no duplicates, are exactly those that occur, in order of first occurrence |
| `Inbox.KeyedMembers` | app/server/grpc_server.go:508-513 | rows kept are exactly those with a non-empty raw id, under the normalised id |
| `Inbox.SourcesMeetIff` | app/server/grpc_server.go:535-580 | whatever else the sources hold, a raw id that both list is in the inbox under the id of either, and the two are one iff a single normalisation settles that id (Mongo rows are normalised twice) |
| `Inbox.ListedTwice` | app/server/grpc_server.go:535-580 | a room both sources list as dm:c:b:a is in the inbox twice |
| `Unread.RoomRepository.UpdateLastActivity` | app/repository/postgres.go:214-229 | the upsert replaces the room's row whatever its time |
| `Unread.RoomRepository.UpdateReadReceipt` | app/repository/postgres.go:232-244 | the upsert replaces the cursor of that room and user whatever its time |
| `Unread.RoomRepository.Apply` | app/server/grpc_server.go:279-294 | a persisted send writes time, id, sender and preview to the activity row and then the sender's cursor, if there is a sender; a receipt moves one cursor |
| `Unread.RoomRepository.HasUnread` | app/repository/postgres.go:341-356 | the CASE expression over the two rows |
| `Unread.RowsReflectRun` | app/repository/postgres.go:214-244 | after any run the rows are the last message and the last own cursor applied |
| `Unread.FlagRefinesLog` | app/repository/postgres.go:344-356 | if the room's messages are applied in time order and the user's cursors are, the flag says whether some message by another is newer than all the user has read or sent, for every run |
| `Unread.FlagIsSound` | app/repository/postgres.go:344-356 | without any hypothesis a raised flag means the last message is another's and newer than the cursor last applied |
| `Unread.UnreadIffNewest` | app/repository/postgres.go:344-356 | something is unread in the log iff the newest message by another is newer than all the user has read or sent |
| `Unread.RightStepIff` | app/repository/postgres.go:344-356 | where the flag is right, one more event leaves it right iff it is in step: a guard on the event, the two rows and those two newest times |
| `Unread.FlagRightThroughoutIff` | app/repository/postgres.go:344-356 | for every run mixing messages, own sends and receipts in any order and any rooms: the flag is right at every point iff every event is in step |
| `Unread.MessageOrderIff` | app/repository/postgres.go:344-356 | for a run of messages by others: the flag is right after every prefix for any time at which one receipt may be sent iff the messages are in time order |
| `Unread.CursorOrderIff` | app/repository/postgres.go:344-356 | for a run of receipts: the flag is right after every prefix for any time at which one message may arrive iff the receipts are in time order |
| `Groups.Repository.Create` | app/repository/mongodb.go:283-347 | an error for an empty name or creator, else creator and non-empty ids as ACTIVE members, count their number, the creator OWNER |
| `Groups.Repository.AddGroupMember` | app/repository/mongodb.go:380-416 | the member is ACTIVE in the given role, MEMBER if none is given, and among the participants; the count grows by one in any case |
| `Groups.Repository.RemoveGroupMember` | app/repository/mongodb.go:418-435 | the member, if there is one, is INACTIVE and not a participant; the count falls by one in any case |
| `Groups.Repository.LeaveGroup` | app/repository/mongodb.go:437-439 | leaving is a removal by oneself |
| `Groups.Repository.PromoteAdmin` | app/repository/mongodb.go:441-453 | succeeds iff the user is an ACTIVE member |
| `Groups.Repository.TransferOwnership` | app/repository/mongodb.go:455-470 | the successor is made OWNER only if ACTIVE, the named current owner ADMIN in any case |
| `Groups.SerialRunAgrees` | app/repository/mongodb.go:380-439 | from creation, every serial run keeps participants = the ACTIVE members |
| `Groups.CountExactIff` | app/repository/mongodb.go:380-439 | member_count less the number of ACTIVE members = adds of existing members - removals of non-members, so the count is exact iff these balance |
| `Groups.DriftLaw` | app/repository/mongodb.go:404-432 | the same law write by write, hence for every interleaving of concurrent operations |
| `Groups.InterleavingAgreesIff` | app/repository/mongodb.go:380-435 | after any interleaving the two collections agree iff for every user their last writes went the same way |
| `Groups.OvertakingWritesDisagree` | app/repository/mongodb.go:380-435 | an add and a removal of one user can leave an INACTIVE participant |
| `Groups.OwnersFollow` | app/repository/mongodb.go:380-470 | what each operation does to the set of ACTIVE owners, for any group |
| `Groups.OneOwnerStepIff` | app/repository/mongodb.go:380-470 | an operation on a group with one owner leaves exactly one iff a guard checkable before the call holds |
| `Groups.OwnershipIff` | app/repository/mongodb.go:283-470 | from creation there is exactly one ACTIVE owner at all times iff every operation of the run is guarded |
| `Groups.TransferToInactiveOrphans` | app/repository/mongodb.go:455-470 | a transfer by the owner to an inactive user leaves no owner |
| `Groups.TransferByStrangerDoubles` | app/repository/mongodb.go:455-470 | a transfer naming the wrong owner leaves two |
| `Groups.OwnersInterleaved` | app/repository/mongodb.go:380-470 | after any interleaving of the writes of any operations, a user is an ACTIVE owner iff the writes to that user, in their order, end so |
| `Groups.RacingTransfers` | app/repository/mongodb.go:455-470 | any number of transfers by one owner, their writes in any order, leave as owners all the ACTIVE members they name: two that race leave two |
| `Lifecycle.Server.Process` | app/server/grpc_server.go:143-301 | on the store, the saves and the broadcasts: a stream frame with text or media, or a call with a room and a user, is broadcast once and saved once, and any other changes nothing; an author's edit to a text that is not blank and an author's delete change the one field and are broadcast; a save lands iff its id is free |
| `Lifecycle.Server.EditMessage` | app/repository/mongodb.go:658-681 | only the author's message that is not deleted |
| `Lifecycle.Server.SoftDeleteMessageByOwner` | app/repository/mongodb.go:642-656 | only the author's message, deleted already or not |
| `Lifecycle.Server.SaveMessage` | app/repository/mongodb.go:485-527 | an insert under an existing id changes nothing |
| `Lifecycle.AgreesStepIff` | app/server/grpc_server.go:143-301 | an operation leaves every room's replay equal to its history iff it is proper: a message has an id and it is new, an edit or delete names the message's own room and is announced, unless nothing would change |
| `Lifecycle.LiveViewAgreesIff` | app/server/grpc_server.go:143-301 | over whole runs, with saves landing at any time and in any order: replay and history agree throughout iff every operation is proper |
| `Lifecycle.QuietViewIsHistory` | app/server/grpc_server.go:259-301 | with no save running, the replay of a room shows exactly the stored sender, text and deleted flag of its messages |
| `Lifecycle.OnlyAuthorChanges` | app/repository/mongodb.go:642-681 | in every run a stored message keeps room and author, changes only through its author, and never changes after deletion |
| `Presence.RedisPresenceStore.SetOnline` | app/chat/presence.go:66-76 | online sets the key to expire in 60 s; offline deletes it and records the last-seen time |
| `Presence.RedisPresenceStore.Expire` | app/chat/presence.go:108 | a refresh extends the key only while it is alive |
| `Presence.RedisPresenceStore.Get` | app/chat/presence.go:78-96 | one entry per asked user, online iff the key lives, last-seen only for offline users |
| `Presence.OnlineIff` | app/chat/presence.go:66-111 | over every timed run a user reads online iff there is a going-online with no going-offline after it and never 60 s between refreshes up to now |
| `Presence.TickingStaysOnline` | app/chat/presence.go:98-111 | a stream with a refresh in every stretch of `period` milliseconds, period + 1 under the TTL, reads online at every instant |
| `Presence.HeartbeatKeepsOnline` | app/chat/presence.go:98-111 | a stream whose heartbeat ticks every 30 s and dies after n ticks reads online until exactly 60 s after the last tick |
| `Presence.SilenceGoesOffline` | app/chat/presence.go:40-45 | 60 s after the last refresh the user reads offline |
| `Presence.BeatsDoNotRevive` | app/chat/presence.go:66-111 | after one of several streams closes, the others' heartbeats do not bring the user back |
| `Presence.LastSeenIsLastClose` | app/chat/presence.go:70-96 | an offline user's last-seen time is that of the last close, and none if there was only a crash |

## Left out

- Generated protobuf code, gRPC transport, JWT interceptor, configuration, logging, presigned URLs and object storage: plumbing around libraries. Messages carry only the fields the properties need.
- JSON on the broker: marshal then unmarshal is taken to be the identity on the modelled fields.
- Wall clocks and UUIDs are inputs; where an id must be non-empty or times must be ordered, the lemma says so.
- Drivers of Mongo, Postgres, Redis and Kafka: each call is an atomic update that succeeds; failed calls are not modelled except where the code branches on a failed match or a duplicate key. Regex search, the aggregate fallback of the Mongo inbox, schema migration and the Mongo unread counter are database semantics.
- DeleteGroup: it removes both collections' rows and leaves nothing to state.
- Hub.ShardedHub.Register: does not model the lock, since a class method is one step; the module Streams splits check, registration and count.
- Streams: the write lock is taken to wait for broadcasts of the same room only, where the source locks a whole shard. That admits more interleavings than the source, so what holds in every run here holds there.
- Streams: the presence broadcasts, the typing, reaction and receipt events of a stream are broadcasts of some broadcaster; which stream causes which broadcast is not recorded.
- KafkaBroker.Broker.Append: Go's growth policy is not specified by the language; the new array here has length 2n + 1, and no lemma depends on it. A data race on single cells is not modelled: a cancel or subscribe falls between two sends of a dispatcher.
- Delivery: one room at a time. When and how often a broker hands a published message to which live channel is left open, so consumer-group assignment, late and repeated hand-offs are all runs of the model; the order of items within one channel is not kept. Copies are counted as offers; what a full queue drops is in StreamQueues.
- RoomStore.Store.CreateDM: two creates that race between get and save are not modelled. The constructors of Mongo and Postgres appear through the id they mint.
- Paging.GetMessages: the room's documents carry one time in both fields, as they are saved; documents with equal keys keep insertion order from one query to the next, which Mongo does not promise; the read receipt that the handler sends is left to the module Unread.
- Inbox.GetUserRooms: the room kind of Postgres rows, the queries behind both sources and their order of rows (GetUserRoomsDetailed sorts by last activity, with ties in no fixed order) are inputs; an absent or failing source is an empty list.
- Unread: the two writes of one send are one step. The 120-byte cut of previews is left out; a cut inside a character, which Postgres would refuse, is driver behaviour.
- Groups.Repository.Create: participants are a set; their order in the document is Go's map order and means nothing.
- Lifecycle.Server.Process: does not model typing, receipt and reaction frames, which are broadcast and change no message.
- Lifecycle: what a client shows after a broadcast is not in the repository; the replay here takes a message frame to create or replace the message, and edit and delete frames to change one it knows. Store update and broadcast of one edit are one step, so two racing edits by one author are not modelled.
- Presence: Redis and the pods share one clock; the in-process LocalPresenceStore, which has no expiry, is left out.
