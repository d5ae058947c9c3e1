# Verification of NoKnowledge's protocols

A Dafny model of the messenger's stateful core, and proofs about it: the Double Ratchet session and the
handshake that roots it, the relay's mailboxes and their replication, one-time prekeys at both ends, end-to-end
delivery into the local message table, history merging, device transfers and approvals, and the arithmetic and
eviction loops around them. Code that updates fields in place is a class whose methods are proved against a
function of the old state; what the protocol promises is then proved about that function over every input, every
step and every run. `dafny verify dfyconfig.toml` checks the whole project.

How the parts build on each other:

- **Cryptography** (`SymbolicCrypto`) is a free term algebra: key derivation is injective, Diffie-Hellman is
  commutative, a sealed box opens only under its own key, nonce and associated data, new key pairs are new names.
- **Ratchet** (`RatchetModel`, `RatchetKeys`, `RatchetChain`, `RatchetSession`, `RatchetDivergence`, `RatchetStray`,
  `RatchetStem`, `X3dh`). The class `Ratchet` is proved against `Attempt`. A conversation is a history of epochs (one ratchet key each) with
  the packets sent in them; `Aligned` says that both parties' states are exactly what the history prescribes.
  `AlignedUnlessLate` gives the exact condition under which a delivery keeps that, `RunStaysAligned` carries it
  over whole runs, `RunAgreement` reads the agreement of the two ends out of it, and
  `AlignedExactlyWhenPermitted` closes the circle: a run ends aligned exactly when it had no late delivery.
- **Relay and replication** (`Rows`, `RelayDb`, `RelayRuns`, `RelayMailbox`, `RelayPrekeys`, `RelayServer`,
  `RelayBoxes`, `RelayLives`, `MultiRelay`, `MailboxConservation`). Each database transaction is one atomic function
  on tables; runs are arbitrary sequences of them. `RelayBoxes` shows that the tables answer as mailboxes and queues
  would, `RelayLives` follows one mailbox and one bundle through a run, and `MailboxConservation` interleaves any number of relays with the client's fetch,
  handle and acknowledge steps, any request of which may fail before or after it was carried out.
- **Client** (`ClientModel`, `ClientRuns`, `ClientRows`, `ClientDelivery`, `ClientSending`, `ClientRollback`). Sessions looked up by
  wire id, first messages, message rows, receipts, fan-outs to a peer's devices. A peer's outbound session is answered
  on another session, so it is one sending chain, and each of its messages carries the handshake; any of them may
  arrive first. `ClientDelivery` follows the receiver, `ClientSending` the sender and both ends together.
- **Devices** (`History`, `HistoryFields`, `HistoryJoin`, `HistoryBundle`, `DeviceSync`, `DeviceTransfer`,
  `DeviceApprovals`, `DeviceRecords`).
- **Kernels** (`Radix`, `Base32`, `Hashcash`, `RateLimit`, `LocalCache`).

Where the code and its own documents disagree, the model follows the code:

- `PROTOCOL.md:243` (and section 3.5 of the Double Ratchet specification) consult the skipped keys before the
  Diffie-Hellman step. The code steps first (`noknowledge/crypto/ratchet.py:197-202`). So a late message of an old
  epoch whose key is cached does open, but leaves a state that no continuation of the conversation ever reaches:
  `AlignedUnlessLate` makes this an equivalence and `LateMessageBreaksTheSession` is a schedule that does it.
- A message that relays of every device accepted can be lost. A fan-out saves its sessions only after the last
  device's put (`noknowledge/core/client.py:617-638`, `client.py:964-984`), so when it fails at one device, the copies
  stored for others keep their message numbers while the sender forgets having used them. If an earlier fan-out had
  saved the session, the next message is sealed under the same number and key, and the device that opened the first
  copy refuses it as a duplicate; a fan-out that fails while it starts the session forgets the session instead, and
  the next one starts another. `AcceptedMessageIsLost` is such a run with two devices;
  `ReusedExactlyWhenSavedBefore` says exactly when a number is used again and `StoredMessageArrivesExactlyWhenFirst`
  exactly which message survives. That no key seals twice (`NoKeyUsedTwice`) holds of a `Ratchet` object, and fails
  for the session the client stores and reloads.
- `noknowledge/core/history.py:295` calls a merge idempotent. It is for items that name their direction and, without
  a remote id, their type; any other item is inserted again each time (`RemergeSettlesExactlyWhen`). And
  `history.py:46` promises that a merge never moves a message backwards; within one bundle that repeats a message
  it can, because the index is not refreshed after an update (`MergeJoinsUnlessOvertaken`,
  `RepeatedMessageGoesBackwards`).
- The comment at `noknowledge/core/client.py:784-787` says that a device record that fails is not acknowledged. It
  is: the cursor is taken before the record is handled (`client.py:781`), as `CursorsOf` does.
- A transfer of no items is never reported complete (`EmptyTransferNeverCompletes`): the receiver's stored digest
  is empty while the sender's is that of the seed (`noknowledge/core/sync.py:536`).

## Model

| member | source | states |
|---|---|---|
| SymbolicCrypto.DhAgreement | noknowledge/crypto/ratchet.py:57-61 | both ends of an agreement compute one secret, and one private key gives different public keys different secrets |
| SymbolicCrypto.DhOnlyOnePair | noknowledge/crypto/ratchet.py:57-61 | two agreements give one secret exactly when they are between the same two key pairs |
| RatchetModel.Ratchet.constructor | noknowledge/crypto/ratchet.py:111-114 | a ratchet object holds exactly the state it is given |
| RatchetModel.Ratchet.Send | noknowledge/crypto/ratchet.py:146-162 | sends exactly as `Encrypt` says: the key at the chain's position, a header with the epoch's number and the previous epoch's length, the chain one step on; without a sending chain it fails and changes nothing |
| RatchetModel.Ratchet.CacheUntil | noknowledge/crypto/ratchet.py:242-247 | the skipping loop caches exactly the sender's keys of the numbers passed over, each under its own slot, and derives that many keys |
| RatchetModel.Ratchet.SkipTo | noknowledge/crypto/ratchet.py:237-247 | skipping refuses gaps over MAX_SKIP without changing anything and otherwise equals its closed form |
| RatchetModel.Ratchet.StepDh | noknowledge/crypto/ratchet.py:220-235 | the Diffie-Hellman step replaces root, both chains, keys and counters as specified; when it fails, exactly the counters and the remote key were already set |
| RatchetModel.Ratchet.TryDecrypt | noknowledge/crypto/ratchet.py:183-216 | the uncommitted attempt computes `Attempt` and derives at most 2*MAX_SKIP+1 keys, for arbitrary headers |
| RatchetModel.Ratchet.Decrypt | noknowledge/crypto/ratchet.py:166-181 | a call that fails leaves every field as it was; one that succeeds commits exactly the attempted state and returns its text; at most 2*MAX_SKIP+1 keys are derived |
| RatchetModel.DecryptGrowth | noknowledge/crypto/ratchet.py:166-216 | one call grows the skipped-key cache by at most 2*MAX_SKIP, whatever the header says |
| RatchetKeys.RunKeepsOrder | noknowledge/crypto/ratchet.py:146-216 | from any state whose keys are in order, all keys used over a run of calls with arbitrary input are distinct and none was used before it |
| RatchetKeys.NoKeyUsedTwice | noknowledge/crypto/ratchet.py:146-216 | over any run, no message key opens two calls, and none seals two |
| RatchetKeys.OpenedStaysShut | noknowledge/crypto/ratchet.py:166-216 | a packet that opened once opens never again in that run |
| RatchetChain.TakeOnChain | noknowledge/crypto/ratchet.py:202-216 | key `n` of a chain is available exactly when `n` is new and at most MAX_SKIP ahead; it is the sender's key and the chain moves past `n` |
| RatchetChain.DeliverOnChain | noknowledge/crypto/ratchet.py:183-216 | message `n` of the current chain opens if and only if it is new and within reach, to its own text |
| RatchetChain.FirstCopiesOpen | noknowledge/crypto/ratchet.py:202-216 | arrivals in any order and repetition: the first copy of each opens to its text, every later copy is refused as a duplicate |
| RatchetChain.ArrivalsStayOnChain | noknowledge/crypto/ratchet.py:202-247 | after any such arrivals the receiver stands on the chain with exactly the unopened numbers cached |
| RatchetChain.AnyPermutationOpens | noknowledge/crypto/ratchet.py:202-216 | for every permutation of messages 0..k-1 within the gap limit each call returns that message's own text, the counter ends at k and no skipped key is left |
| RatchetSession.StartAligned | noknowledge/crypto/ratchet.py:116-142 | the initiator and responder built from one session key are aligned |
| RatchetSession.SendKeepsAligned | noknowledge/crypto/ratchet.py:146-162 | sending keeps the parties aligned; a party can send exactly when it has entered an epoch |
| RatchetSession.DeliverCurrent | noknowledge/crypto/ratchet.py:183-216 | a packet of the current remote epoch opens if and only if it is unopened and within reach, and the receiver's state stays the one the history prescribes |
| RatchetSession.DeliverNext | noknowledge/crypto/ratchet.py:197-235 | a packet of the next remote epoch opens exactly within the two gap limits and opens one new epoch, no epoch skipped |
| RatchetSession.DeliverElsewhere | noknowledge/crypto/ratchet.py:197-202 | a packet of any other epoch opens exactly when its key is cached, and then leads to a diverged root |
| RatchetSession.DeliverKeepsAligned | noknowledge/crypto/ratchet.py:183-216 | every delivery a network can make, except the late cached one, keeps both parties aligned |
| RatchetSession.RootNeverRejoins | noknowledge/crypto/ratchet.py:220-235 | the root key committed by a late delivery is the root of no epoch of any future of the conversation |
| RatchetSession.AlignedUnlessLate | noknowledge/crypto/ratchet.py:197-202 | an authentic delivery keeps alignment if and only if it is not late with its key in the cache; the exceptional one opens and diverges for good |
| RatchetSession.OpensExactlyOnce | noknowledge/crypto/ratchet.py:183-216 | in an aligned system, exact condition for a sent packet to open, always to its own text; on time it opens only if not delivered before |
| RatchetSession.ReachIsAThousand | noknowledge/crypto/ratchet.py:197-216 | the reach in numbers: at most 1000 past the receiver's count on the current chain; for a new ratchet key at most 1000 missing at the end of the old chain and at most 1000 at the start of the new one |
| RatchetSession.FirstArrivalReach | noknowledge/crypto/ratchet.py:237-247 | a first message that arrives with n before it missing opens and caches n keys when n is at most 1000, and is refused as too far when it is more |
| RatchetSession.TamperedIsRefused | noknowledge/crypto/ratchet.py:183-216 | a packet that differs from every packet sent (header, context, nonce or box altered, or forged) is refused and changes nothing |
| RatchetSession.RunStaysAligned | noknowledge/crypto/ratchet.py:116-247 | any interleaving of sends, drops, duplicates, reorderings and forgeries without late deliveries keeps the parties aligned |
| RatchetSession.RunAgreement | noknowledge/crypto/ratchet.py:116-247 | in every such run epochs alternate without gaps, root keys are those of one common schedule, the receiving chain at its count is the sender's chain advanced as far, `pn` is the exact length of the previous epoch, and each cached key is the sender's key of that slot |
| RatchetDivergence.DivergedPartyIsDeaf | noknowledge/crypto/ratchet.py:197-235 | right after a late delivery, nothing the peer sends in its current or next epoch opens, unless its slot is cached |
| RatchetDivergence.DivergedPartyIsUnheard | noknowledge/crypto/ratchet.py:197-235 | right after a late delivery, nothing the diverged party seals on its new chain opens at the peer |
| RatchetDivergence.LateMessageBreaksTheSession | noknowledge/crypto/ratchet.py:197-202 | a concrete run of honest messages, from the two constructors on, in which one late message opens and the next current one is refused, while it would have opened without the late one |
| RatchetStray.LateGoesAstray | noknowledge/crypto/ratchet.py:197-235 | a late delivery puts the receiver's root where no continuation of the conversation ever comes |
| RatchetStray.StrayStays | noknowledge/crypto/ratchet.py:146-247 | every step keeps such a root off the schedule |
| RatchetStray.AlignedExactlyWhenPermitted | noknowledge/crypto/ratchet.py:116-247 | in every run a network can make the parties are aligned at the end if and only if no cached packet was delivered late |
| RatchetStray.LateSendsAstray | noknowledge/crypto/ratchet.py:197-235 | a late delivery leaves a sending chain off the schedule as well |
| RatchetStray.StraySenderKeepsSending | noknowledge/crypto/ratchet.py:146-162 | the stray party notices nothing: it can always seal, every send moves its chain on, and its packets are on the network like any other |
| RatchetStray.StraySenderIsUnheard | noknowledge/crypto/ratchet.py:146-247 | after a late delivery and any further steps, any number of its own sends among them, nothing the stray party seals opens at a party the schedule describes, in whatever packet it is carried |
| RatchetStray.LateReceivesOff | noknowledge/crypto/ratchet.py:197-235 | all the stray party may still open with is what its cache holds right after the late delivery |
| RatchetStray.StrayReceiverIsDeaf | noknowledge/crypto/ratchet.py:183-247 | after a late delivery and any further steps, a packet sealed on the schedule opens at the stray party only under a key it had cached by then |
| X3dh.BothEndsAgree | noknowledge/crypto/x3dh.py:98-145 | initiator and responder derive the same session key if and only if the responder holds exactly the private keys of the bundle used, with or without a one-time prekey |
| X3dh.InitiateSucceedsExactlyWhen | noknowledge/crypto/x3dh.py:98-134 | a handshake starts if and only if both identity keys are the card's, the prekey id fits four bytes, the signature is the contact's over exactly this bundle id, prekey id and prekey, and the keys are points; it takes the first one-time key |
| X3dh.AlteredBundleIsRefused | noknowledge/crypto/prekeys.py:141-158 | of an honest bundle a relay can alter nothing but the one-time keys: any other altered field, or a signature not the contact's, is refused |
| X3dh.HandshakeStartsAligned | noknowledge/crypto/x3dh.py:98-145 | matching ends start an aligned conversation |
| X3dh.MismatchedHandshakeFails | noknowledge/crypto/x3dh.py:134-145 | ends with different session keys cannot open a first message |
| RelayServer.Database.Create | noknowledge/server/db.py:100-126 | inserts a mailbox at sequence 1, refusing a duplicate id unchanged |
| RelayServer.Database.Delete | noknowledge/server/db.py:140-150 | removes the mailbox with all its messages and blobs and reports exactly how many |
| RelayServer.Database.Put | noknowledge/server/db.py:174-201 | checks mailbox, count and byte quota in that order, then appends under the next sequence number |
| RelayServer.Database.Ack | noknowledge/server/db.py:216-223 | deletes exactly the rows up to the cursor and reports their number |
| RelayServer.Database.Publish | noknowledge/server/db.py:227-254 | replaces the bundle and adds only one-time keys with new ids, all or nothing |
| RelayServer.Database.FindOpk | noknowledge/server/db.py:227-254 | the uniqueness test of publishing: whether the bundle already has a one-time key with this id |
| RelayDb.FirstUnused | noknowledge/server/db.py:265-275 | the first unused one-time key of a bundle in insertion order, or none when all are used |
| RelayServer.Database.Fetch | noknowledge/server/db.py:256-280 | hands out the bundle with the first unused one-time key, marked used in the same step |
| RelayServer.Database.StoreBlob | noknowledge/server/db.py:284-304 | stores a blob within the mailbox's byte quota, else fails unchanged |
| RelayServer.Database.Sweep | noknowledge/server/db.py:321-353 | drops exactly the idle mailboxes with their rows; its counts equal the rows that vanished; nothing is stray |
| RelayServer.DroppedIsClean | noknowledge/server/db.py:321-353 | once the idle mailboxes are gone, the stray-blob deletion removes nothing |
| RelayRuns.ApplyKeepsValid | noknowledge/server/db.py:100-353 | every transaction keeps the relay invariants |
| RelayRuns.EveryReachableStateIsValid | noknowledge/server/db.py:100-353 | from an empty relay on, in every reachable state each mailbox is within its message and byte quota, sequence numbers ascend below the next one, and every message and blob belongs to a live mailbox |
| RelayRuns.FreshMailboxIsEmpty | noknowledge/server/db.py:100-126 | a new mailbox starts at zero usage |
| RelayRuns.NoStrays | noknowledge/server/db.py:343-348 | in a valid state no blob is stray |
| RelayBoxes.ApplyFollows | noknowledge/server/db.py:100-348 | every transaction answers as mailboxes with letters and chunks, and bundles with a queue of keys, would answer, and leaves tables that stand for what those become |
| RelayBoxes.EveryAnswerIsTheBoxes | noknowledge/server/db.py:100-348 | after any history from the empty relay every answer is that of the boxes and queues after the same history |
| RelayBoxes.FetchShowsLetters | noknowledge/server/db.py:203-213 | a fetch shows the first letters above the cursor, in order and unaltered, as many as asked for, all of them for a negative limit |
| RelayBoxes.BlobComesBack | noknowledge/server/db.py:284-313 | a chunk comes back with exactly the bytes stored under its name, for as long as some mailbox keeps it |
| RelayLives.AcceptedExactlyWhenRoom | noknowledge/server/db.py:100-201 | over any run from its creation a mailbox keeps its creator's tokens, and a message is accepted if and only if fewer than the creator's number wait and the waiting message and blob bytes plus its own stay within the creator's quota; a blob if and only if it fits and its name is free |
| RelayLives.SweptExactlyWhenIdle | noknowledge/server/db.py:321-348 | over any run, housekeeping takes a mailbox away if and only if its creation, every touch and every accepted message since lie before the cutoff, given times that do not run backwards; its messages go with it |
| RelayMailbox.InboxAscends | noknowledge/server/db.py:174-201 | a mailbox's rows are in strictly increasing sequence order below the next number |
| RelayMailbox.FetchIsEarliest | noknowledge/server/db.py:203-214 | a fetch returns, in order, rows after the cursor, and everything it leaves out is later |
| RelayMailbox.FetchIsPrefix | noknowledge/server/db.py:203-214 | from cursor 0 a fetch is a prefix of the inbox, however many messages wait |
| RelayMailbox.SparedInboxGrows | noknowledge/server/db.py:100-353 | other transactions only append to an inbox |
| RelayMailbox.AckAfterFetchIsExact | noknowledge/server/db.py:203-223 | acknowledging the last fetched number deletes exactly the fetched rows, with any transactions in between |
| RelayMailbox.RunAppends | noknowledge/server/db.py:174-214 | between acknowledgements an inbox only grows, by rows with consecutive numbers |
| RelayMailbox.NumbersAreNeverReused | noknowledge/server/db.py:174-223 | over a whole mailbox lifetime, acknowledgements included, assigned numbers are consecutive and none is reused |
| RelayPrekeys.HandedOutInOrder | noknowledge/server/db.py:256-280 | over any run one-time keys of a bundle are handed out in insertion order |
| RelayPrekeys.NoPrekeyTwice | noknowledge/server/db.py:227-280 | over any run of publish, republish and fetch each (bundle, key id) is handed out at most once |
| RelayPrekeys.FetchGivesOneWhileAnyIsLeft | noknowledge/server/db.py:256-280 | a fetch carries a one-time key as long as an unused one exists |
| RelayPrekeys.LogMatchesTable | noknowledge/server/db.py:227-280 | every key handed out over a run is a row of the table, marked used, and rows persist |
| RelayPrekeys.LogIsWhatFetchReturns | noknowledge/server/db.py:256-280 | the log of handouts records exactly the key in the reply of each fetch |
| RelayLives.FetchReturnsLastPublished | noknowledge/server/db.py:225-280 | over any run a fetch returns the payload of the last publish of that bundle that went through, and fails if and only if there was none |
| MultiRelay.MultiRelayBackend.Put | noknowledge/wire/backends/multi_relay.py:100-117 | writes to every relay, succeeds exactly when some relay says accepted, and reports not-found only when every failure was that |
| MultiRelay.PutOutcomeTells | noknowledge/wire/backends/multi_relay.py:100-117 | a put counts as lost exactly when it changed no relay's tables; one that fails otherwise has stored a copy |
| MultiRelay.RepliesTell | noknowledge/wire/backends/multi_relay.py:100-117 | not found means an answer from a relay without the mailbox, refused one without room, accepted one with; a write is kept by every relay that received it and had room, whatever the sender heard |
| MultiRelay.MultiRelayBackend.Fetch | noknowledge/wire/backends/multi_relay.py:119-141 | collects each answering relay's rows in relay order with that relay's own cursor |
| MultiRelay.MultiRelayBackend.Ack | noknowledge/wire/backends/multi_relay.py:143-154 | acknowledges only at the relays named, ignoring failures |
| MultiRelay.CursorsOf | noknowledge/core/client.py:779-781 | the loop of `sync` computes the highest number per relay over all fetched items, whatever handling them does |
| MultiRelay.MaxSeqIsMaximum | noknowledge/core/client.py:779-781 | that cursor is attained and maximal, and relays that gave nothing get none |
| MultiRelay.CursorIsLastRow | noknowledge/core/client.py:773-800 | the number acknowledged to a relay is that of the last row this round fetched from it |
| MultiRelay.CollectedItems | noknowledge/wire/backends/multi_relay.py:119-141 | a fetch collects from each relay exactly its rows after that relay's cursor, from the start if it has none |
| MailboxConservation.AckDeletesWhatWasHandled | noknowledge/core/client.py:773-801 | an acknowledgement deletes exactly the rows the same round fetched from that relay and handed to the handler, with puts in between |
| MailboxConservation.StepConserves | noknowledge/core/client.py:773-801 | every step of relays and client keeps: accepted rows are still there or were handled |
| MailboxConservation.NothingIsLost | noknowledge/wire/backends/multi_relay.py:100-154 | over any interleaving with failures at any time, a row a relay accepted is still in its mailbox or has been handed to the handler |
| MailboxConservation.AnsweredRoundDrains | noknowledge/core/client.py:773-801 | a round that a relay answers hands over the first messages waiting there, as many as a page holds, and leaves exactly the others: enough rounds empty the mailbox |
| ClientModel.Client.FindSession | noknowledge/core/client.py:471-481 | returns a place holding a session with the wire id, or none when no contact holds one |
| ClientModel.Client.FanOut | noknowledge/core/client.py:567-615 | copies are sealed and put device by device; sessions are saved only when every put was answered, and a failure forgets all of the fan-out's advances but not the blobs already stored |
| ClientModel.Client.AcceptInbound | noknowledge/core/client.py:900-904 | stores the card keeping existing sessions, spends the one-time prekey, saves the session under this device |
| ClientModel.Client.ProcessEnvelope | noknowledge/core/client.py:915-962 | a text or file envelope becomes one received row unless one with its id exists, and is acknowledged by receipt; a receipt only sets a state |
| ClientModel.Client.HandleBlob | noknowledge/core/client.py:803-878 | handles a blob for the session found, or starts one from its handshake; anything that does not open or prove its sender changes nothing |
| ClientModel.Client.Sync | noknowledge/core/client.py:773-801 | a round handles every fetched blob in order, whatever became of the others, and returns the new rows |
| ClientRuns.SyncIsARun | noknowledge/core/client.py:773-801 | a round is a run of single arrivals, so what holds of runs holds across rounds |
| ClientRuns.DeliverKeepsTheRest | noknowledge/core/client.py:964-984 | sending, whatever its outcome, touches only the contact's outbound sessions |
| ClientRows.SentIsListed | noknowledge/core/client.py:617-644 | a send that reaches every device adds one sent row with what was said, dated now; one that fails changes nothing |
| ClientRows.SealingDependsOnPending | noknowledge/core/client.py:567-593 | a pending session seals only with its handshake material, and sends handshake, proof and card along; an established one sends the bare envelope without a handshake |
| ClientRows.HearingEstablishes | noknowledge/core/client.py:803-904 | a session that opens something is established, keeps its id and handshake, and drops the key the handshake was proved with |
| ClientRows.RoundReportsNewRows | noknowledge/core/client.py:773-801 | a round returns as new exactly the rows it added, each once |
| ClientRows.ReceiptsAnswerTheMessage | noknowledge/core/client.py:964-984 | handling sends something back only for a new message, and then only receipts that name its id and say delivered |
| ClientRows.ReceiptSetsTheState | noknowledge/core/client.py:947-962 | a receipt sets the state of the row it names, to what it says or to read, and touches no other row |
| ClientRows.ReceiptMarksTheMessage | noknowledge/core/client.py:617-984 | end to end: a receipt that answers a message marks exactly the sender's row of that message as delivered |
| ClientRuns.AdvanceSurvivesTheReceipt | noknowledge/core/client.py:838-842 | the session advance saved for a blob is in the store after the receipt sent mid-handling, whether that succeeds or fails; the receipt moves at most the sending side of an outbound session |
| ClientRuns.AtMostOneRowPerEnvelope | noknowledge/core/client.py:924-945 | over any run with any blobs no envelope id ever has two received rows |
| ClientRuns.OnlyAcceptanceSpends | noknowledge/core/client.py:880-913 | a step removes a one-time prekey exactly when it accepts a first message naming it |
| ClientRuns.FailedFirstMessageChangesNothing | noknowledge/core/client.py:808-904 | a blob of an unknown session changes the client only if it was sealed for its header and handshake, its prekeys are ours and unspent, and its proof is signed by the card's owner for this session id, handshake and derived key; otherwise nothing is consumed |
| ClientRuns.OneTimeKeyBacksOneSession | noknowledge/core/client.py:844-913 | over any run two accepted first messages never share a one-time prekey or its private key |
| RatchetStem.OpeningKeepsStem | noknowledge/crypto/ratchet.py:183-216 | a packet opens only under a key grown from the session's own session key |
| ClientDelivery.FirstCopy | noknowledge/core/client.py:844-904 | any message of a new session, arriving first, is accepted with its text exactly when within reach |
| ClientDelivery.LaterCopy | noknowledge/core/client.py:819-842 | a copy in a live session opens exactly when it is new and within reach |
| ClientDelivery.SealedIsCopyOrMisplaced | noknowledge/core/client.py:803-827 | whatever is done to the blob of a message (session id, nonce, header or handshake), the outcome is an exact copy or one of the blobs shown to be ignored |
| ClientDelivery.CopyStands | noknowledge/core/client.py:803-842 | handling a copy leaves the session on its chain, with that number and text newly opened exactly when the number is new and within reach |
| ClientDelivery.AlienStands | noknowledge/core/client.py:803-913 | foreign blobs, and the session's own with nonce, header or handshake altered or moved under another session id, leave the session and the one-time prekey it waits for untouched |
| ClientDelivery.MisplacedIsIgnored | noknowledge/core/client.py:803-827 | a blob of the session whose nonce, header or handshake was altered or that was moved under another session id, and a foreign blob under this one, is ignored in every state of the store, before and after the first contact |
| ClientDelivery.RunStands | noknowledge/core/client.py:773-984 | through any run the session stays on its chain and received rows exist for exactly the letters opened |
| ClientDelivery.ExactlyOnce | noknowledge/core/client.py:773-984 | end to end: replicated, repeated, reordered within the gap limit, with first-contact blobs arriving late, a message has exactly one received row if it is the first presented of its number and none otherwise; the row holds its body, type and time under the peer's contact; so a message whose number was sealed once has exactly one row once any copy was presented |
| ClientDelivery.ProcessShows | noknowledge/core/client.py:924-945 | processing an envelope adds at most one received row, with the envelope's body, type and time (our own time if it has none) under the sender's contact, in state received; of the rows there were it changes at most the state |
| ClientDelivery.SecondSessionTakesTheSlot | noknowledge/core/client.py:824-842 | accepting another session of the same peer puts it in the one inbound slot: the session held before is in the store no longer |
| ClientDelivery.SupersededSessionIsDead | noknowledge/core/client.py:844-863 | no message of a session that is not in the store opens once its one-time prekey is spent |
| ClientDelivery.DeadStaysDead | noknowledge/core/client.py:773-913 | and it stays out of the store over every run, whatever copies of it, altered or moved ones included, and whatever further sessions of the peer arrive |
| ClientSending.SealingIsGenuine | noknowledge/core/client.py:567-593 | sealing gives the genuine message of the session's current number, with handshake, proof and card, and moves the session one on |
| ClientSending.FanOutNumbers | noknowledge/core/client.py:595-615 | the copies a fan-out stores for a device carry consecutive numbers from where its session stood, kept only if the whole fan-out succeeds |
| ClientSending.CopiesAreNumbered | noknowledge/core/client.py:617-715 | over any run of the sender, from a session with any number of messages sealed, every stored copy has the number that the fan-outs saved before it determine |
| ClientSending.SessionIsNumbered | noknowledge/core/client.py:514-638 | from the step that starts a session: its copies are numbered from zero; after a completed first fan-out it is in the store with at least one message sealed, after a failed one it is forgotten |
| ClientSending.LogIsComplete | noknowledge/core/client.py:514-638 | every copy ever sealed in a session is in its log: a session forgotten by its first fan-out seals nothing more |
| ClientSending.StartedMakesReady | noknowledge/core/client.py:514-523 | a session started from the receiver's own published keys is at the start of a chain grown from its session key, and the receiver can complete its handshake |
| ClientSending.NumberedAgainExactlyWhenRolledBack | noknowledge/core/client.py:595-638 | in any log of fan-outs a number is used again if and only if the fan-out that used it failed after this device's copy was stored and a later fan-out got as far again |
| ClientSending.ReusedExactlyWhenSavedBefore | noknowledge/core/client.py:525-638 | over the life of a session a number is sealed a second time if and only if an earlier fan-out had saved the session, the one that used the number failed after this device's copy was stored, and a later one got as far again; the fan-out that starts the session never leads to it |
| ClientSending.StoredCopiesAreThePeers | noknowledge/core/client.py:567-615 | everything the sender stored for a device, from the step that starts the session on, is a genuine copy of its number and letter |
| ClientSending.UnrepeatedNumbersSealOnce | noknowledge/core/client.py:595-638 | when no number was used again, no number carries two letters |
| ClientSending.StoredMessageArrivesExactlyWhenFirst | noknowledge/core/client.py:567-984 | over a run of the sender that starts the session and a run of the receiver, a stored message has exactly one received row if its copy is the first presented of its number, none otherwise, and always one when no number was used again |
| ClientRollback.AcceptedMessageIsLost | noknowledge/core/client.py:595-638 | two devices, no session at the start: a first message starts and saves both sessions, the second fan-out fails after the phone's copy is stored, the third succeeds under the number of the second; its message, accepted by a relay of each device, never gets a row |
| ClientDelivery.HandshakeMakesReady | noknowledge/core/client.py:514-523 | a handshake made against our published keys leaves us able to complete it |
| History.Store.MessageIndex | noknowledge/core/history.py:229-234 | the index points, for each key held, at the row with that key that is listed last by time and id, and knows its state |
| HistoryFields.InsertsExactlyWhenNew | noknowledge/core/history.py:91-277 | in fields: with a remote id an item becomes a row if and only if no row has its contact, direction and remote id; without one, if and only if no row without a remote id has its contact, direction, time, type and body; the new row holds exactly the item's fields |
| HistoryFields.StateRisesExactlyWhenFurther | noknowledge/core/history.py:243-258 | a known row takes over an item's state if and only if that is read and the row is not, or delivered and the row is neither; nothing else changes |
| HistoryFields.ReadStaysRead | noknowledge/core/history.py:41-47 | over any run of merges a read message stays read and a delivered one delivered or read |
| HistoryFields.IndexKnowsTheLatest | noknowledge/core/history.py:229-234 | of several rows that are one message the index knows the latest, and among equally late ones the last by id |
| History.Store.MergeContacts | noknowledge/core/history.py:193-240 | known contacts are kept, new ones come from their first item, the count is exact, a malformed new contact stops the merge |
| History.Store.MergeMessages | noknowledge/core/history.py:243-277 | the loop computes `MergeItems`: insert under a new key, raise the state against the remembered one |
| History.Store.MergeChunks | noknowledge/core/history.py:280-291 | chunks already held are kept, new ones come from their first item, the count is exact |
| History.Store.MergeBundle | noknowledge/core/history.py:294-302 | contacts, then messages, then chunks, with exact counts; a malformed contact stops it before any message |
| HistoryJoin.KeyIsStable | noknowledge/core/history.py:91-108 | the row an item becomes is found again under the item's key exactly when direction and (without remote id) type are present |
| HistoryJoin.MergeKeepsLaw | noknowledge/core/history.py:243-277 | for any list of well-formed bundle items, repeated keys included: a key is held afterwards exactly when held or offered, at the last rank offered above the remembered one |
| HistoryJoin.MergeIsJoin | noknowledge/core/history.py:243-302 | a bundle with distinct keys is joined: union of keys, maximum rank per key, keys stay unique |
| HistoryJoin.MergingIsJoin | noknowledge/core/history.py:229-302 | merging any list of such bundles yields the union of keys and per key the maximum rank |
| HistoryJoin.OrderAndRepetitionDoNotMatter | noknowledge/core/history.py:229-302 | two runs carrying the same items in any order, grouping and repetition end with the same messages at the same ranks |
| HistoryJoin.MergingAgainChangesNothing | noknowledge/core/history.py:294-302 | merging a bundle again changes no row and counts nothing |
| HistoryJoin.RowsAreKept | noknowledge/core/history.py:243-277 | through any run a stored row keeps everything but its state, whose rank never falls |
| HistoryJoin.RepeatsKeepTheMaximumExactlyWhen | noknowledge/core/history.py:253-259 | with repeated keys the final rank is the maximum if and only if no later raise falls short of an earlier one |
| HistoryJoin.MergeJoinsUnlessOvertaken | noknowledge/core/history.py:253-259 | the same for a whole merge of any bundle: exact condition for it to be a join |
| HistoryJoin.RepeatedMessageGoesBackwards | noknowledge/core/history.py:253-259 | a concrete bundle that moves a message from read back to delivered |
| HistoryJoin.RemergeSettlesExactlyWhen | noknowledge/core/history.py:243-277 | re-merging an item changes nothing if and only if it is well formed (or skipped) |
| HistoryJoin.OneItemJoinsExactlyWhen | noknowledge/core/history.py:253-277 | merging one item, with or without an id of its own, is a join if and only if it is skipped, or its message is known, or it is well formed and its id is not taken |
| HistoryBundle.Collect | noknowledge/core/history.py:132-157 | the attachment loop takes the distinct ids in order of first mention and carries each one that is held and still fits |
| HistoryBundle.EveryChunkIsAccountedFor | noknowledge/core/history.py:132-157 | each distinct chunk id referred to lands exactly once, in exactly one of the two lists |
| HistoryBundle.ReferencesGoByMessage | noknowledge/core/history.py:132-157 | chunks are considered message by message, oldest first, and within a message in order |
| HistoryBundle.CarriedExactlyWhenItFits | noknowledge/core/history.py:132-157 | a chunk is carried if and only if it is held and fits on top of what was carried before its first mention, so an older chunk is never given up for a newer one |
| HistoryBundle.SelectionFillsTheBudget | noknowledge/core/history.py:132-157 | carried bytes stay within the budget, and adding any chunk skipped as over budget to the final selection would exceed it |
| HistoryBundle.CarriedAsHeld | noknowledge/core/history.py:147-157 | what is carried is the ciphertext held under that id |
| DeviceSync.HashChain.constructor | noknowledge/core/device_channel.py:196-201 | starts from the seed or resumes a stored digest |
| DeviceSync.HashChain.Add | noknowledge/core/device_channel.py:203-206 | extends the digest by number and item; a number that does not fit four bytes is refused |
| DeviceSync.Device.NoteSeen | noknowledge/core/sync.py:190-199 | records a transfer id once and keeps the last 200 |
| DeviceSync.Device.Stream | noknowledge/core/sync.py:372-419 | writes exactly the offer, the items numbered from one and the closing digest, or the prefix reached when a write fails |
| DeviceSync.Device.ApproveDevice | noknowledge/core/sync.py:301-346 | the approval is remembered only after its record was written, before any history is sent; the request is forgotten only when all was sent |
| DeviceSync.Device.RevokeApproval | noknowledge/core/sync.py:184-187 | removes the device from the approvals and nothing else |
| DeviceSync.Device.MirrorChange | noknowledge/core/sync.py:425-483 | one record to each approved sibling that can be reached, and the count of them |
| DeviceSync.Device.HandleRecord | noknowledge/core/sync.py:489-623 | each record kind changes exactly the state it should, an item only when it merged and its number fits |
| DeviceTransfer.ChainsAgreeExactlyWhen | noknowledge/core/device_channel.py:187-209 | receiver's and sender's digests are equal if and only if they cover the same items, numbered the same, under the same transfer |
| DeviceTransfer.EntryTracksApplied | noknowledge/core/sync.py:578-623 | since an offer the entry counts and digests exactly the applied items |
| DeviceTransfer.EntryWithoutOffer | noknowledge/core/sync.py:578-620 | a sender without an offer is counted from nothing |
| DeviceTransfer.CompleteExactlyWhenAllApplied | noknowledge/core/sync.py:525-560 | for a transfer of at least one item, `complete` is set exactly when the items applied since the offer are the sent list, each once and in order |
| DeviceTransfer.EmptyTransferNeverCompletes | noknowledge/core/sync.py:525-560 | a transfer of no items is never reported complete |
| DeviceTransfer.WholeBackfillCompletes | noknowledge/core/sync.py:372-419 | what the sender streams, delivered whole and applied, is reported complete whatever came before |
| DeviceTransfer.EntriesDoNotMix | noknowledge/core/sync.py:525-623 | over any run of records of any devices, a device's entry is what its own records alone leave |
| DeviceTransfer.CompleteAmongOtherTraffic | noknowledge/core/sync.py:489-623 | the completeness condition holds with records of other devices in between |
| DeviceApprovals.OnlyApprovedDevicesGetData | noknowledge/core/sync.py:301-483 | over any run every OFFER, ITEM, COMPLETE and MIRROR goes to a device approved when it was written |
| DeviceApprovals.NextKeepsGate | noknowledge/core/sync.py:301-483 | the approvals noted with a write are those in force at that step, and writes are never taken back |
| DeviceRecords.MirrorReachesApproved | noknowledge/core/sync.py:425-483 | a mirrored change goes to every sibling that is approved and reachable, once per listing, and to nobody else |
| DeviceRecords.RequestReachesAll | noknowledge/core/sync.py:270-298 | a request goes to every reachable sibling |
| DeviceRecords.ApprovalSendsInOrder | noknowledge/core/sync.py:301-346 | approving a device writes approval, offer, items and closing record in this order up to the first relay failure; the approval counts once the first is written |
| DeviceRecords.HistoryFollowsItsApproval | noknowledge/core/sync.py:301-346 | over any run every offer, item and closing record to a device comes after the approval that announced its transfer to it |
| DeviceRecords.RequestWaitsUntilSettled | noknowledge/core/sync.py:202-352 | over any run a device's last request waits exactly until a human denies it or its history was sent to the end |
| DeviceApprovals.ApprovedExactlyWhenGranted | noknowledge/core/sync.py:172-187 | a device is approved if and only if a human approved it here, or it sent an approval not seen before, and nobody revoked it since |
| DeviceApprovals.SeenIsTheLastFew | noknowledge/core/sync.py:190-199 | the seen list is duplicate-free and always the last 200 recorded ids |
| DeviceRecords.SeenExactlyWhenAmongTheLast | noknowledge/core/sync.py:190-199 | over any run an approval's transfer id counts as seen if and only if it is among the last 200 recorded |
| DeviceApprovals.ReplayNeedsTwoHundredNewerIds | noknowledge/core/sync.py:513-523 | one transfer id is accepted twice only after 200 newer ids were recorded |
| DeviceApprovals.RevokedStaysOutWithoutNewGrant | noknowledge/core/sync.py:184-199 | replays of recent approvals never bring a revoked device back |
| RateLimit.SlidingWindowLimiter.Allow | noknowledge/server/ratelimit.py:22-34 | the popping loop drops exactly the events before the cutoff, then admits or refuses against the limit |
| RateLimit.EveryWindowIsBounded | noknowledge/server/ratelimit.py:15-34 | over a whole run every closed interval of the window's length holds at most `limit` admissions of a key |
| RateLimit.RefusedExactlyWhenFull | noknowledge/server/ratelimit.py:22-34 | a call is refused if and only if exactly `limit` admissions lie in the closed window ending now |
| RateLimit.KeysDoNotInterfere | noknowledge/server/ratelimit.py:19-34 | each key is treated as if the calls for other keys had never been made |
| RateLimit.ZeroLimitNeverRefuses | noknowledge/server/ratelimit.py:23-24 | a limit of zero (or less) refuses and records nothing |
| LocalCache.Cache.Oldest | noknowledge/core/store.py:572-574 | finds a chunk than which none is older |
| LocalCache.Cache.Prune | noknowledge/core/store.py:562-582 | drops oldest first until the rest fits (or nothing is left), the running total being the sum of what remains; before the last drop it did not fit |
| LocalCache.Cache.PutLocalBlob | noknowledge/core/store.py:522-532 | a chunk already held is left alone, the cache ends within 2 GiB, and nothing is evicted while everything fits |
| LocalCache.PruningKeepsTheMost | noknowledge/core/store.py:562-582 | every other newest-first selection that fits the cap is contained in what pruning keeps |
| LocalCache.NothingPrunedBelowCap | noknowledge/core/store.py:571 | a cache that fits is left alone |
| Base32.Encode | noknowledge/crypto/encoding.py:32-45 | the bit-buffer loop writes the bytes' number, padded, in base 32 |
| Base32.Decode | noknowledge/crypto/encoding.py:48-64 | the loop reads the symbols back as that number, dropping the padding, or reports the first symbol outside the alphabet |
| Base32.EncodedValue | noknowledge/crypto/encoding.py:32-45 | the encoding is canonical, has length ceil(8n/5), and its value is the bytes' value shifted by the padding |
| Base32.RoundTrip | noknowledge/crypto/encoding.py:32-64 | decoding an encoding returns the bytes, for every byte string |
| Base32.SpellingDoesNotMatter | noknowledge/crypto/encoding.py:13-15 | case and the I, L, O, U lookalikes do not change what is decoded |
| Base32.AlphabetIs | noknowledge/crypto/encoding.py:13-15 | the alphabet is the digits and the letters without I, L, O and U, in ascending order |
| Base32.LookalikesRead | noknowledge/crypto/encoding.py:13-15 | anywhere in a text small letters read as capitals, O as zero, I and L as one, U as V |
| Base32.EndsAreTrimmed | noknowledge/crypto/encoding.py:48-53 | the ten ASCII white space characters, at either end of a text, do not change what is decoded |
| Base32.StrangersAreRefused | noknowledge/crypto/encoding.py:48-58 | any other character below the digits but the hyphen, in first place, makes the text undecodable |
| Base32.HyphensDoNotMatter | noknowledge/crypto/encoding.py:48-53 | an inserted hyphen leaves the symbols as they are if and only if it does not stand outside white space at an end of the text, which is then no longer trimmed and no symbol; so what decoding returns changes if and only if it does so in a text that decodes |
| Hashcash.CountLeadingZeroBits | noknowledge/server/security.py:40-48 | the loop counts the zero bits before the first set one |
| Hashcash.ThresholdOfZeroBits | noknowledge/server/security.py:40-48 | a digest has at least `b` leading zero bits if and only if, as a big-endian number, it is below 2^(8n-b) |
| Hashcash.AcceptedExactlyAtThreshold | noknowledge/server/security.py:51-70 | an in-date stamp is accepted exactly when its digest is below that threshold |

## Left out

- RatchetSession.RunStaysAligned: excludes late deliveries, because the code diverges there; RatchetStray.AlignedExactlyWhenPermitted has the equivalence.
- ClientDelivery.ExactlyOnce: follows one session of one peer device, because the inbound map has a single slot per own device: the peer signs for no second session with this device, and nobody else signs for its session id; nobody but the peer seals under its keys; foreign blobs do not repeat its message ids or name its one-time prekey; the contact is not deleted and no history is merged into the table during the run.
- ClientSending.StoredMessageArrivesExactlyWhenFirst: the session's copies only; a fan-out that fails while it starts a session forgets the session itself, and the next one starts another, which is a second session in the sense above (`SecondSessionTakesTheSlot` and `DeadStaysDead` say what becomes of the first). Nobody answers in the session, as no client sends in an inbound one.
- RateLimit.EveryWindowIsBounded: requires times that do not run backwards, as a monotonic clock gives; times are real numbers, floating-point rounding is not modelled.
- HistoryJoin.MergeIsJoin: for items without an id of their own, as bundles carry them, with random row ids that are new; for a single item that brings its id, as mirrors do, HistoryJoin.OneItemJoinsExactlyWhen has the exact condition; the digest of a message body is taken as the body itself.
- History.Store.MergeChunks: the cache under its cap, so that no chunk is evicted during the merge; LocalCache.NothingPrunedBelowCap says when that is so.
- History.Store.MessageIndex: one account per store.
- LocalCache.PruningKeepsTheMost: for distinct creation times, since the query does not say which of equally old chunks comes first.
- DeviceTransfer.CompleteExactlyWhenAllApplied: the hash is a free constructor per use, so it is assumed that no transfer id reads as the bytes of a digest, a number and an item; record opening, signatures and item decryption are taken as done.
- MultiRelay.MultiRelayBackend: relays are values in a sequence held by the object, not separate objects; relay transport and retries are the three outcomes of a request.
- RelayPrekeys.NoPrekeyTwice: one relay; each relay keeps its own used marks, so the same key may be handed out once by each.
- Wrapped, truncated or encoded representations: JSON, base64, zlib, padding and the header's own byte layout; a wire header is its three fields or malformed.
- Secrecy, anonymity and denial of service: correctness properties only.
- Receipts set a message state unconditionally (noknowledge/core/client.py:950-951), so no rank monotonicity is claimed through them.
- `mark_read`, the outbox, attachments' chunking, contact cards, capabilities and tokens, relay discovery and URL normalisation.
- The v1 session container that is read as a single outbound session.
- SQLite, HTTP, the GUI and its worker thread, key files and vaults; each transaction is one atomic step and crashes between transactions are not modelled.
- The device-list caches and the fetching of sibling keys; whether a device is found is a parameter.
- Case mapping and whitespace outside ASCII in the base32 decoder.
