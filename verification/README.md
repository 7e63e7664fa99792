# Proscenium protocols, verified

A Dafny model of the stateful protocols in Proscenium's Rust backend, with proofs about every run,
every input or every reachable state. `dafny verify dfyconfig.toml` checks the whole project.

| protocol | files | main results |
|---|---|---|
| Double Ratchet messaging | `SymbolicCrypto`, `Ratchet`, `DmSessions`, `RatchetRuns`, `RatchetInvariant`, `RatchetReceive`, `RatchetSafety`, `RatchetTheorems`, `RatchetStorage`, `RatchetReplay`, `RatchetHeaders` | exact outcome of every first delivery; at-most-once delivery under any header; deliverability never lost, and exactly what an altered header can lose; exact stored keys; parties in step; message keys used once |
| Peer sync | `Tables`, `PeerSync`, `SyncTheorems` | the exact tables after a round between any two devices, and when nothing is missing; what the counts really say; nothing held is sent again; broken streams |
| Speaker forwarding (SFU) | `SfuHub` | the exact subscriptions under any interleaving; full mesh unless a node reconnects |
| Stage stream authentication | `StreamAuth`, `StreamAuthTheorems` | what `Verified` means, in both directions; honest streams verify from any joining point |
| Linked-device sync | `DeviceSync`, `DeviceSyncTheorems`, `DeviceSyncFailures` | deltas refine full merges; two devices agree if and only if their ties agree; convergence of N devices in two passes, whatever sessions broke off before |
| Listener allocation | `Topology` | counters match the map; a slot is never lost; as many listeners served as can be |
| Mixer and encoder buffer | `Codec`, `Mixer` | conservation of every sample; exact mix and mix-minus; timestamps |
| Framing | `Framing` | exact round trips; truncation detected |

Code that updates fields in place is a class with methods, proved against functions on values; the
theorems are about those functions. Cryptography is symbolic: key derivation and hashing are free
and injective, Diffie-Hellman commutes, a ciphertext opens only under the key that sealed it, and
generated keys are new. I/O, clocks and randomness are parameters.

How to read the ratchet proof. Alice and Bob together generate one sequence of private keys. A party
at step `t` holds key `t`, sends on chain `t - 1` and receives on chain `t - 2`. The invariant says
that each session is exactly what this shared history prescribes, and that its stored keys are
exactly those of the messages it has passed over and not accepted. A run is any list of sends,
deliveries (repeated, reordered, or missing) and corrupted envelopes. `RatchetReplay` needs no
history: it watches one session against arbitrary envelopes. `RatchetHeaders` adds honest
ciphertexts under altered headers, which the source does not authenticate.

Where the code and its comments differ, the model follows the code:

- A responder that has not yet accepted a message has no sending chain, and sealing for it panics
  (`ratchet.rs:154-156`). `DmSessions.Seal` returns an error that saves nothing;
  `RatchetTheorems.PingPong` says exactly when this happens.
- `ratchet.rs:8` speaks of a maximum number of skipped keys to store. The code limits each skip to
  100 and nothing limits the total: `RatchetStorage.StoredKeysUnbounded` reaches every number.
- `auth.rs:76-77` calls a listener compromised after `TamperDetected`. The code also sets the flag
  after `InvalidSignature`, and so does the model.
- `transport.rs:52` says a clean close reads as no frame. The code maps only the error
  `ClosedStream` to no frame; any other early end, a finished stream included, is an error.
- `max_by_key` returns the last of several maxima, so among relays with equal room the latest wins.

Four promises hold only under a condition, which the theorems give exactly:

- A sync round brings a client everything it lacks if and only if every lacking row can be stored
  and none is left unsent (`SyncTheorems.RoundCompletes`). Rows stay unsent if the counts match,
  that is if as many rows are gone from the server as are lacking (`EqualCountsCanMislead`), or if
  the count test passes and some are not newer than the client's newest. Without rows gone this
  can only happen to a client that holds no row of the author, with a server row at timestamp 0,
  because 0 also means "no newest row" (`ZeroTimeIsMissed`).
- A device session leaves both devices equal if and only if no key has equal timestamps with
  different rows (`DeviceSyncTheorems.SessionConverges`, `TiesSplit`).
- Two settled speakers are subscribed to each other if and only if the later one found the earlier
  one in the hub. Without reconnects it always does (`SfuHub.FullMesh`); a node that registers
  again before its old entry is gone can be hidden by the old connection's clean-up
  (`SfuHub.StaleCleanupHides`).
- An envelope that opens under an altered header costs no other message if and only if the length
  it claims for the previous chain, or the receiver's count, reaches the length the sender gave
  (`RatchetHeaders.LengthDecides`).

Each step of a protocol is also described without its own function: in closed form, field by field,
sample by sample or byte by byte, with the constants of the source written out (`DecryptExactly`,
`ReceiveExactly`, `InsertPostExactly`, `AnswersAfterFirst`, `DeltasExactly`, `RelayJoins`,
`MixSamples`, `BigEndianBytes` and others).

## Model

| member | source | states |
|---|---|---|
| Ratchet.RatchetState.Alice | src-tauri/src/crypto/ratchet.rs:115-132 | the initiator starts with a sending chain from the agreement of its new key and the responder's public key |
| Ratchet.RatchetState.Bob | src-tauri/src/crypto/ratchet.rs:137-150 | the responder starts from its long-lived key pair, with no chain |
| Ratchet.RatchetState.Encrypt | src-tauri/src/crypto/ratchet.rs:153-169 | the header names the current key and count, the ciphertext is sealed under the next message key, and the sending chain moves on by one |
| Ratchet.RatchetState.DecryptInPlace | src-tauri/src/crypto/ratchet.rs:172-198 | result and final state, also on failure, are those of the function all ratchet theorems are about |
| Ratchet.RatchetState.TrySkippedKeys | src-tauri/src/crypto/ratchet.rs:201-217 | the first stored key of that chain and number is removed whether or not it opens the message; without one nothing changes |
| Ratchet.FindSkipped | src-tauri/src/crypto/ratchet.rs:206-208 | finds the first stored key for a header, and none only if there is none |
| Ratchet.RatchetState.SkipMessages | src-tauri/src/crypto/ratchet.rs:220-240 | fails without change when more than 100 ahead, and otherwise fast-forwards to the target |
| Ratchet.RatchetState.DhRatchet | src-tauri/src/crypto/ratchet.rs:243-264 | both new chains come from the two root steps, the counts restart and the old sending count is kept |
| Ratchet.SkipClosed | src-tauri/src/crypto/ratchet.rs:220-240 | the loop stores exactly the keys of the numbers passed, and leaves the chain advanced by as many steps |
| Ratchet.SkipBounded | src-tauri/src/crypto/ratchet.rs:220-240 | one skip adds at most 100 stored keys and removes none |
| Ratchet.StoredKeysBounded | src-tauri/src/crypto/ratchet.rs:172-240 | one decryption adds at most 200 stored keys, and none is lost except the one used |
| Ratchet.DecryptExactly | src-tauri/src/crypto/ratchet.rs:172-264 | result and remaining session of every decryption in closed form, failures included: which errors change nothing, and which leave the session moved on or turned |
| DmSessions.DmHandler.HandleEncryptedMessage | src-tauri/src/dm/incoming.rs:13-171 | session and message are saved together and only on success; every error leaves both tables as they were |
| DmSessions.ReceiveExactly | src-tauri/src/dm/incoming.rs:32-69 | a delivery succeeds exactly if it decrypts to a payload that is not a message or whose sender is known, and saves the session the decryption left; each other case has its own error |
| DmSessions.SenderMattersForMessages | src-tauri/src/dm/incoming.rs:56-150 | delivered marks, read marks, typing and calls have the same outcome whether or not the sender is known |
| DmSessions.DmHandler.EncryptAndSave | src-tauri/src/dm/crypto.rs:71-113 | the envelope is sealed from the stored session and the advanced session is saved, or nothing changes |
| DmSessions.SealExactly | src-tauri/src/crypto/ratchet.rs:153-169 | sealing fails exactly without a sending chain; header, key and advanced session field by field |
| RatchetReceive.DecryptStored | src-tauri/src/crypto/ratchet.rs:177-180 | a message passed over earlier opens with its stored key, and only that key goes |
| RatchetReceive.DecryptCurrent | src-tauri/src/crypto/ratchet.rs:182-198 | exact outcome for a message of the current chain: replayed, too far, or opened with the exact resulting session |
| RatchetReceive.DecryptNext | src-tauri/src/crypto/ratchet.rs:185-197 | exact outcome for the first message of a new chain: too far on either chain, or opened with the exact resulting session |
| RatchetReceive.DecryptOld | src-tauri/src/crypto/ratchet.rs:183-197 | a message of an older chain whose key is not stored never opens |
| RatchetReceive.StoredAfterUse | src-tauri/src/crypto/ratchet.rs:210-213 | using a stored key leaves exactly the keys of the messages still awaited |
| RatchetReceive.StoredAfterPassing | src-tauri/src/crypto/ratchet.rs:226-235 | fast-forwarding stores exactly the keys of the messages passed, none twice |
| RatchetReceive.StoredAfterTurn | src-tauri/src/crypto/ratchet.rs:185-188 | closing a chain at its full length and turning to the next loses no awaited key |
| SymbolicCrypto.DhLaws | src-tauri/src/crypto/ratchet.rs:119-120 | the two parties agree on the shared secret, and it tells the peer's public key |
| RatchetSafety.JunkRejected | src-tauri/src/crypto/ratchet.rs:103-109 | a ciphertext nobody sealed is rejected under any header |
| RatchetSafety.SendKeeps | src-tauri/src/dm/crypto.rs:76-96 | a load-encrypt-save step by either party keeps the invariant of both |
| RatchetSafety.StepKeeps | src-tauri/src/dm/incoming.rs:32-54 | every event of a run keeps the invariant, failed deliveries rolled back |
| RatchetSafety.RunsKeepInv | src-tauri/src/crypto/ratchet.rs:115-264 | the invariant holds after every run |
| RatchetTheorems.FirstDelivery | src-tauri/src/crypto/ratchet.rs:172-240 | the first delivery of an envelope returns its payload if its key is stored, or it is on the current chain at most 100 ahead, or on the next chain with both distances at most 100; otherwise it reports too many skipped messages; messages of older chains are always stored |
| RatchetTheorems.Redelivery | src-tauri/src/dm/incoming.rs:32-54 | an accepted envelope never opens again, from any chain, and the delivery changes no session |
| RatchetTheorems.DeliverableStays | src-tauri/src/crypto/ratchet.rs:172-264 | a message that can be opened can still be opened after any further events, until it is accepted; acceptance is permanent |
| RatchetTheorems.PingPong | src-tauri/src/crypto/ratchet.rs:115-150 | the parties are exactly one step apart, the one behind derives the other's root key and sending chain, receiving chains are the peer's sending chain some steps back; the initiator has a sending chain, and the responder if and only if it has accepted a message |
| RatchetTheorems.SendingChainStays | src-tauri/src/crypto/ratchet.rs:153-264 | a party that has a sending chain still has one after any further events |
| RatchetTheorems.StoredKeysExact | src-tauri/src/crypto/ratchet.rs:201-240 | the stored keys are one each for the messages passed over and not accepted, under the key that sealed them |
| RatchetTheorems.MessageKeysUnique | src-tauri/src/crypto/ratchet.rs:93-100 | no two envelopes of a run, in either direction, are sealed under the same key, as the fixed nonce needs |
| RatchetStorage.StoredKeysCounted | src-tauri/src/crypto/ratchet.rs:201-240 | the number of stored keys is the number of messages passed over and not accepted |
| RatchetStorage.StoredKeysUnbounded | src-tauri/src/crypto/ratchet.rs:220-240 | for every number there is a run that stores that many keys |
| RatchetReplay.AnyDecryption | src-tauri/src/crypto/ratchet.rs:172-240 | whatever arrives, a key already passed and not stored opens nothing, and the key that opens becomes such a key |
| RatchetReplay.SpentForever | src-tauri/src/dm/incoming.rs:32-54 | a key once passed and not stored opens nothing ever again, whatever the session sends or receives |
| RatchetReplay.AtMostOncePerKey | src-tauri/src/dm/incoming.rs:32-54 | after an envelope is accepted, no envelope under its key is accepted again, under any header, whatever happened before and between |
| RatchetHeaders.AlteredHeader | src-tauri/src/crypto/ratchet.rs:172-198 | an honest ciphertext that opens under another header has the effect of its own, unless it begins a chain and only the previous length differs |
| RatchetHeaders.AlteredRunsAreHonest | src-tauri/src/dm/incoming.rs:32-54 | a run with altered headers that keep that length equals an honest run, so that every theorem about runs holds of it |
| RatchetHeaders.DeliverableUnderAltered | src-tauri/src/dm/incoming.rs:32-54 | deliverability is never lost in such runs |
| RatchetHeaders.WrongLength | src-tauri/src/crypto/ratchet.rs:185-188 | with another length, each other message that could be opened still can, or never can again; lost are exactly those on the closed chain at or beyond the claimed length and the receiver's count |
| RatchetHeaders.LengthDecides | src-tauri/src/crypto/ratchet.rs:185-188 | nothing is lost if and only if the claimed length or the receiver's count reaches the true length |
| Tables.Newest | src-tauri/src/storage/posts.rs:203-210 | the largest timestamp of the author, or 0 |
| Tables.SortByTime | src-tauri/src/storage/posts.rs:229-233 | a permutation of the rows |
| Tables.SortOrders | src-tauri/src/storage/posts.rs:229-233 | the order is ascending by timestamp |
| Tables.SortIsStable | src-tauri/src/storage/posts.rs:229-233 | rows of equal timestamp keep their insertion order |
| Tables.CountIsCardinality | src-tauri/src/storage/posts.rs:195-201 | with unique keys a row count is the size of the set of selected rows |
| Tables.InsertPostExactly | src-tauri/src/storage/posts.rs:25-44 | a post is appended exactly when no row has its author and id |
| Tables.InsertInteractionExactly | src-tauri/migrations/005_content.sql:19-31 | an interaction is appended exactly when no row has its author and id, or its author and target |
| Tables.UniqueExactly | src-tauri/migrations/005_content.sql:12-31 | the keys are unique exactly when no two rows share author and id, nor two interactions author and target |
| Tables.InsertKeepsUnique | src-tauri/src/storage/posts.rs:25-44 | insert-or-ignore keeps the keys unique |
| Tables.SelectionOnce | src-tauri/src/storage/posts.rs:222-245 | an ordered query gives exactly the matching rows, in order of timestamp, none twice |
| Tables.PagesJoin | src-tauri/src/storage/posts.rs:222-245 | consecutive pages join up to one page, and a large enough page is everything |
| Tables.OnOnePage | src-tauri/src/storage/posts.rs:222-245 | every matching row is on exactly one page of a paged query |
| PeerSync.Storage.InsertPost | src-tauri/src/storage/posts.rs:25-44 | a post is appended unless its author already has one with that id |
| PeerSync.Storage.SaveInteraction | src-tauri/src/storage/interactions.rs:29-47 | an interaction is appended unless its key, or its author and target, is taken |
| PeerSync.Storage.GetPostsAfter | src-tauri/src/storage/posts.rs:222-245 | a page of the author's newer posts: only such posts, in order of timestamp, none twice, as many as are left after the offset and fit; Tables.OnOnePage says how pages add up |
| PeerSync.Storage.GetPostsNotIn | src-tauri/src/storage/posts.rs:247-308 | one page of the author's posts whose id is not in the list, with and without the temporary table |
| PeerSync.Storage.GetInteractions | src-tauri/src/storage/interactions.rs:140-186 | a page of the author's newer interactions, or of all: only such rows, in order of timestamp, none twice, as many as are left after the offset and fit |
| PeerSync.Storage.GetPostIds | src-tauri/src/storage/posts.rs:187-193 | the ids of exactly the author's posts |
| PeerSync.StreamPosts | src-tauri/src/sync/server.rs:154-182 | the paging loop ends; its frames carry the whole selection in order, 200 rows each and from 1 to 200 in the last |
| PeerSync.StreamInteractions | src-tauri/src/sync/server.rs:184-220 | the same for interactions, and nothing is streamed when the counts match |
| PeerSync.ReadFrames | src-tauri/src/sync/client.rs:105-148 | posts and interactions of the frames that arrived are collected in order |
| PeerSync.StorePosts | src-tauri/src/sync/processing.rs:17-21 | the valid posts are stored one by one, conflicts ignored |
| PeerSync.StoreInteractions | src-tauri/src/sync/processing.rs:27-29 | the valid interactions of the expected author are stored one by one, conflicts ignored |
| SyncTheorems.IngestInOrder | src-tauri/src/sync/processing.rs:17-29 | items that do not conflict with each other are appended in order, those accepted and not kept out |
| SyncTheorems.IngestGuards | src-tauri/src/sync/processing.rs:17-29 | against any peer, only valid posts and only valid interactions by the author asked about are stored, and each of them is stored or kept out by a row |
| PeerSync.FirstPages | src-tauri/src/sync/server.rs:154-220 | the first pages hold 200 rows each, or all there are, and a stream has one page for every 200 rows begun |
| PeerSync.Fetch | src-tauri/src/sync/client.rs:95-148 | of a stream that breaks, exactly the rows of the frames that arrived are received; the stream is whole exactly when all pages arrived |
| PeerSync.SyncFromPeer | src-tauri/src/sync/client.rs:43-148 | mode and final tables of a round, whole or broken, are those of the functions the sync theorems are about |
| SyncTheorems.CountBalance | src-tauri/src/sync/server.rs:63-70 | the difference of the counts is the number of rows lacking less the number of rows gone, for any two tables |
| SyncTheorems.EqualCounts | src-tauri/src/sync/server.rs:88-92 | equal counts mean as many rows gone as lacking, and so nothing lacking if none is gone |
| SyncTheorems.CountTest | src-tauri/src/sync/server.rs:93-96 | for any two tables the count test passes exactly when as many rows are gone as lacking rows are not newer than the client's newest; without a newest, exactly when the client holds nothing |
| SyncTheorems.CountTestFromZero | src-tauri/src/sync/server.rs:71-78 | without a newest timestamp it passes exactly for a client that holds nothing of the author, whatever the tables |
| SyncTheorems.RoundExactly | src-tauri/src/sync/server.rs:63-220 | after one round between any two devices each table has kept its rows and gained exactly the rows that were sent and can be stored |
| SyncTheorems.RoundCompletes | src-tauri/src/sync/server.rs:63-220 | a table lacks nothing afterwards if and only if no lacking row was left unsent or cannot be stored, and equals the server's if and only if moreover none is gone; with none gone and valid rows, unless the client held none and the server has one at timestamp 0 |
| SyncTheorems.RoundSettles | src-tauri/src/sync/server.rs:63-99 | the next round is up to date exactly if as many rows are still lacking as gone; a client that lacks nothing is told so exactly if it holds nothing the server deleted; with positive timestamps and none gone one round settles both tables |
| SyncTheorems.BrokenThenWhole | src-tauri/src/sync/client.rs:105-148 | a round whose stream breaks anywhere loses and invents nothing, and a later whole round completes as from a fresh start |
| SyncTheorems.QuietStaysQuiet | src-tauri/src/sync/server.rs:88-92 | a client that is told it is up to date is told so again, and gets nothing, as long as the server's tables stay |
| SyncTheorems.ModeMeaning | src-tauri/src/sync/server.rs:88-99 | each mode in terms of rows gone and lacking, for any two devices; with none gone and positive timestamps the id list is asked for exactly when some lacking post is not newer than the client's newest |
| SyncTheorems.PostsStreamedOnce | src-tauri/src/sync/server.rs:157-182 | for any two tables, no streamed post is already held, and posts come once each in time order |
| SyncTheorems.InteractionsStreamedOnce | src-tauri/src/sync/server.rs:184-220 | interactions come once each in time order: none on equal counts, only newer ones, none held, after a passed test, and all of the author's otherwise |
| SyncTheorems.EqualCountsCanMislead | src-tauri/src/sync/server.rs:89-92 | a witness of the failing case of RoundCompletes: one post deleted, another missed, and the client is told it is up to date |
| SyncTheorems.ZeroTimeIsMissed | src-tauri/src/sync/server.rs:71-78 | a witness for timestamp 0: the row never reaches a client that starts with nothing |
| SfuHub.Hub.RegisterAndSnapshot | src-tauri/src/stage/pipeline.rs:164-171 | the registration step of the runs below: the snapshot is of the maps before the connection enters both |
| SfuHub.Hub.Remove | src-tauri/src/stage/pipeline.rs:286-290 | the clean-up step of the runs below |
| SfuHub.RegisterKeeps | src-tauri/src/stage/pipeline.rs:163-171 | a registration, of a new node or one that is still entered, keeps the mesh invariant |
| SfuHub.SubscribeKeeps | src-tauri/src/stage/pipeline.rs:175-178 | the first half of a peer's iteration keeps the mesh invariant, whoever has disconnected |
| SfuHub.SubscribeBackKeeps | src-tauri/src/stage/pipeline.rs:179-183 | so does the second half |
| SfuHub.LocalKeeps | src-tauri/src/stage/pipeline.rs:186-191 | so do the host subscription, disconnects, and clean-up on a live or dropped connection |
| SfuHub.OnlyLiveGain | src-tauri/src/stage/pipeline.rs:175-191 | no event adds a subscription to a dropped connection, and none adds two |
| SfuHub.DroppedStaysSilent | src-tauri/src/stage/pipeline.rs:175-191 | a dropped connection gains no subscription in any continuation |
| SfuHub.HubAfter | src-tauri/src/stage/pipeline.rs:163-171 | the hub after each event, and the snapshot of a registration |
| SfuHub.MeshExactly | src-tauri/src/stage/pipeline.rs:160-196 | after any interleaving, reconnects included: both maps agree and hold only connections not cleaned up, no connection is subscribed twice or to itself, settled speakers hear the host once, and two settled speakers are subscribed once in each direction if and only if the later found the earlier in the hub |
| SfuHub.FullMesh | src-tauri/src/stage/pipeline.rs:160-196 | if no node registers while its old entry is there, the hub holds every connection not cleaned up, and any two settled speakers are subscribed exactly once in each direction |
| SfuHub.StaleCleanupHides | src-tauri/src/stage/pipeline.rs:285-290 | when the loop of a reconnected node's old connection ends, nobody who registers next finds the new one |
| SfuHub.TaskAdvances | src-tauri/src/stage/pipeline.rs:173-191 | a connect task is never stuck and each of its steps brings it closer to the end |
| StreamAuth.HostAuthState.Process | src-tauri/src/stage/auth.rs:36-53 | extends the chain by the frame and signs every fiftieth |
| StreamAuth.ListenerAuthState.Check | src-tauri/src/stage/auth.rs:99-162 | result and new state are those of the function the authentication theorems are about |
| StreamAuth.Listen | src-tauri/src/stage/pipeline.rs:505-570 | the receive loop splits, drops malformed checkpoints, verifies, plays, and stops at a fatal result |
| StreamAuth.SignatureBinds | src-tauri/src/stage/auth.rs:124-126 | a signature is good for one key and one message |
| StreamAuthTheorems.ChainInput | src-tauri/src/stage/auth.rs:36-41 | each chain hash is the hash of the previous one followed by the frame, from 32 zero bytes on |
| StreamAuthTheorems.HostHashInjective | src-tauri/src/stage/auth.rs:36-41 | equal chain hashes come from equal frames |
| StreamAuthTheorems.AnswersUpToFirst | src-tauri/src/stage/auth.rs:110-132 | in every run: unverified before the first checkpoint, which is adopted if its signature is good and rejected as invalid otherwise |
| StreamAuthTheorems.AnswersAfterFirst | src-tauri/src/stage/auth.rs:134-161 | in every run after an adopted checkpoint: accepted without a checkpoint, tampering on a wrong hash, invalid on a bad signature over the right hash, verified otherwise |
| StreamAuthTheorems.ForgeryIsFatal | src-tauri/src/stage/auth.rs:127-161 | in every run a checkpoint whose signature is not the host's is answered fatally, first or later |
| StreamAuthTheorems.ForgeryEndsPlayback | src-tauri/src/stage/pipeline.rs:542-567 | nothing from that frame on is played, and nothing after it answered |
| StreamAuthTheorems.SplitExactly | src-tauri/src/stage/auth.rs:171-181 | tag 1 announces 32 bytes of hash and 64 of signature, and is dropped without them; other tags carry audio alone |
| StreamAuthTheorems.MalformedIsDropped | src-tauri/src/stage/pipeline.rs:525-541 | a checkpoint that is too short leaves state, answers and playback of the whole stream as if it had not been sent |
| StreamAuthTheorems.RejectionIsPermanent | src-tauri/src/stage/auth.rs:76-81 | after a rejected frame every later frame is reported as tampered with |
| StreamAuthTheorems.CheckpointSoundness | src-tauri/src/stage/auth.rs:134-161 | every verified checkpoint after the first means that the frames since are exactly the host's consecutive frames, a multiple of 50 of them |
| StreamAuthTheorems.CheckpointExact | src-tauri/src/stage/auth.rs:149-156 | at a checkpoint the host signed, the answer is `Verified` if and only if exactly the host's frames arrived, and tampering otherwise |
| StreamAuthTheorems.HeardInOrder | src-tauri/src/stage/pipeline.rs:542-570 | results come in order, the loop stops right after a fatal one, and plays exactly the frames before it |
| StreamAuthTheorems.PlayedIsAuthentic | src-tauri/src/stage/pipeline.rs:539-570 | the audio played between two verified checkpoints is the host's |
| StreamAuthTheorems.CheckpointSplits | src-tauri/src/stage/auth.rs:171-181 | the checkpoint payload splits back into hash, signature and audio |
| StreamAuthTheorems.HostEmits | src-tauri/src/stage/auth.rs:36-53 | frame `n` of the host is a signed checkpoint over its first `n` frames exactly when `n` is a multiple of 50 |
| StreamAuthTheorems.JoinersVerify | src-tauri/src/stage/auth.rs:110-162 | a listener joining an honest lossless stream anywhere reports `Unverified` up to the first checkpoint, then `Verified` at multiples of 50 and acceptance elsewhere, and plays every frame |
| DeviceSync.MergeRows | src-tauri/src/storage/device_sync.rs:115-153 | the merge loop: the newer timestamp wins, and the count is the number of updates |
| DeviceSync.MergedNewest | src-tauri/src/storage/device_sync.rs:115-153 | whatever entries are merged, keys repeated or not, each key ends with the newest of its old row and its entries |
| DeviceSync.UpdatesExactly | src-tauri/src/storage/device_sync.rs:130-150 | the count is the number of entries newer than the old row and than every earlier entry of their key |
| DeviceSync.DeviceStore.MergeFollows | src-tauri/src/storage/device_sync.rs:115-153 | follows are merged by last change |
| DeviceSync.DeviceStore.MergeModeration | src-tauri/src/storage/device_sync.rs:155-189 | moderation rows are merged by last change, per key and kind |
| DeviceSync.DeviceStore.MergeBookmarks | src-tauri/src/storage/device_sync.rs:191-210 | bookmarks become the union, and the count is the number of new ones |
| DeviceSync.DeviceStore.MergeRatchets | src-tauri/src/storage/device_sync.rs:212-246 | ratchet sessions are merged by update time |
| DeviceSync.BuildVector | src-tauri/src/storage/device_sync.rs:10-113 | lists every row of each table once |
| DeviceSync.MergeListing | src-tauri/src/storage/device_sync.rs:115-153 | merging a whole remote table is the join of both |
| DeviceSync.DeltasExactly | src-tauri/src/device_sync.rs:247-318 | exactly the entries the peer has not reported, or reported with an older time, are sent |
| DeviceSync.DeltasRefineMerge | src-tauri/src/device_sync.rs:247-318 | merging only what the reported vector asks for gives the join with the whole remote table, even if the receiver has moved on since |
| DeviceSync.MergeNeverLowers | src-tauri/src/storage/device_sync.rs:130-133 | no merge removes a key or lowers its timestamp, whatever is received |
| DeviceSync.TransferDeltas | src-tauri/src/device_sync.rs:188-321 | the receiver ends with the join of its tables and the sender's |
| DeviceSync.ImportDeltas | src-tauri/src/device_sync.rs:324-373 | the frames are merged table by table |
| DeviceSync.SyncWithDevice | src-tauri/src/device_sync.rs:93-172 | both devices end as the session function says, ratchet sessions being exported after the import |
| DeviceSyncTheorems.SessionConverges | src-tauri/src/device_sync.rs:148-167 | each device ends with the join, keeping its own rows on ties; they agree if and only if no tie has different rows |
| DeviceSyncTheorems.TiesSplit | src-tauri/src/device_sync.rs:148-167 | a witness: two devices with a tie keep their own rows |
| DeviceSyncTheorems.SessionNeverLowers | src-tauri/src/device_sync.rs:93-172 | no session lowers a timestamp or loses a key, even with conflicting ties |
| DeviceSyncTheorems.JoinAllUpper | src-tauri/src/device_sync.rs:376-449 | the join of all coherent devices is above each device |
| DeviceSyncTheorems.JoinAllLeast | src-tauri/src/device_sync.rs:376-449 | and below anything that is above each device |
| DeviceSyncTheorems.OnePassCollects | src-tauri/src/device_sync.rs:394-448 | one pass over all other devices gives a device the join of all |
| DeviceSyncTheorems.TwoPassesConverge | src-tauri/src/device_sync.rs:394-448 | a second pass, in any order, gives it to every device |
| DeviceSyncFailures.BrokenSession | src-tauri/src/device_sync.rs:148-167 | a session that breaks off in either direction leaves each device with its rows, some replaced by newer ones of the other |
| DeviceSyncFailures.ExchangeKeepsJoin | src-tauri/src/device_sync.rs:394-448 | sessions, complete or broken, keep coherent devices coherent and the join of all as it was |
| DeviceSyncFailures.ConvergesAfterFailures | src-tauri/src/device_sync.rs:394-448 | after any complete and broken sessions, two complete passes give every device the join of what all held at first |
| DeviceSyncFailures.SyncAllDevices | src-tauri/src/device_sync.rs:376-449 | the loop, failed sessions included, is such an exchange; without failures it is the pass the theorems are about |
| Topology.MostRoom | src-tauri/src/stage/topology.rs:89-92 | the last of the sources with the most free capacity, and none only when all are full |
| Topology.TopologyManager.constructor | src-tauri/src/stage/topology.rs:41-51 | one host source, nobody assigned, invariant established |
| Topology.TopologyManager.Register | src-tauri/src/stage/topology.rs:54-64 | a known endpoint changes nothing; an unknown one joins as a relay behind the others, with its capacity and nobody on it |
| Topology.RelayJoins | src-tauri/src/stage/topology.rs:54-64 | afterwards the relay is served from, the total capacity has grown by exactly a new relay's, and sources and listeners are otherwise as before |
| Topology.TopologyManager.AssignListener | src-tauri/src/stage/topology.rs:71-106 | state and answer are those of the function the allocation lemmas are about; the invariant is kept |
| Topology.TopologyManager.HandleVolunteer | src-tauri/src/stage/control_handler.rs:252-269 | the reported listeners are, in order, exactly those that end up on the relay; nobody loses a slot, and as many have one as the capacity with the relay allows |
| Topology.OnEndpointExactly | src-tauri/src/stage/control_handler.rs:262-269 | the reported list has exactly the listed listeners on the endpoint, each once |
| Topology.VolunteerServes | src-tauri/src/stage/control_handler.rs:252-269 | the smaller of all wanted and the capacity with the relay are served |
| Topology.ReleaseKeeps | src-tauri/src/stage/topology.rs:76-80 | releasing a held slot never saturates and leaves room on its source |
| Topology.AssignKeeps | src-tauri/src/stage/topology.rs:71-106 | endpoints stay distinct and every counter equals the number of listeners on its source, within capacity |
| Topology.AssignMoves | src-tauri/src/stage/topology.rs:71-106 | fails exactly for a new listener when all sources are full, changing nothing; otherwise moves this listener alone |
| Topology.AssignPrefers | src-tauri/src/stage/topology.rs:82-95 | the host if it has room once the old slot is free, otherwise the last of the sources with the most room |
| Topology.ServedWithinCapacity | src-tauri/src/stage/topology.rs:17-36 | the number of listeners served is at most the total capacity, and equal exactly when all sources are full |
| Topology.AssignAllIsMaximal | src-tauri/src/stage/control_handler.rs:262-269 | assigning a list keeps everyone who had a slot and serves the smaller of all wanted and the total capacity |
| Topology.FirstComeFirstServed | src-tauri/src/stage/control_handler.rs:262-269 | slots go in the order of the list, cut short only when every slot is taken |
| Codec.OpusEncoder.PushSamples | src-tauri/src/audio/codec.rs:41-62 | keeps the newest 10 frames of samples, encodes each complete frame once in order, and keeps the remainder |
| Codec.FramesPartition | src-tauri/src/audio/codec.rs:50-51 | frames and remainder concatenate to the buffer |
| Codec.PushLosesNothing | src-tauri/src/audio/codec.rs:41-62 | with a codec that does not fail, packets and remainder are exactly the newest 9600 samples, in order |
| Mixer.DrainChannel | src-tauri/src/stage/mixer.rs:162-184 | every chunk is appended, the oldest samples beyond 5 frames dropped |
| Mixer.DrainAll | src-tauri/src/stage/mixer.rs:159-185 | every channel is drained into its own buffer, and the closed ones are reported |
| Mixer.RemoveAll | src-tauri/src/stage/mixer.rs:186-189 | exactly the closed speakers lose buffer and channel |
| Mixer.DrainExactly | src-tauri/src/stage/mixer.rs:162-184 | draining a channel, whatever its chunks, leaves the newest 4800 of all samples |
| Mixer.MixBuffers | src-tauri/src/stage/mixer.rs:191-206 | each speaker gives one frame from the front of its buffer, and the total is their sum at every position, in any order |
| Mixer.ContributionAt | src-tauri/src/stage/mixer.rs:198-204 | a contribution is the first 960 samples of the buffer, and silence past its end |
| Mixer.MixSamples | src-tauri/src/stage/mixer.rs:191-243 | at each position listeners hear the clamped sum of all buffers, the host that of all others, the speakers the host's clamped sample |
| Mixer.BuffersExactly | src-tauri/src/stage/mixer.rs:159-204 | exactly the speakers with an open channel stay, each with the newest 4800 samples less the 960 mixed |
| Mixer.SumAtAny | src-tauri/src/stage/mixer.rs:195-206 | the sum does not depend on the order of the map |
| Mixer.MixMinus | src-tauri/src/stage/mixer.rs:219-236 | total less the host's contribution is the clamped sum of all the others |
| Mixer.TimestampFollows | src-tauri/src/stage/mixer.rs:214-215 | the wrapped timestamp is 960 times the wrapped number, modulo 2^32 |
| Mixer.SequenceCounter.Send | src-tauri/src/stage/mixer.rs:211-217 | packets get consecutive wrapped numbers, with the timestamp 960 times the number |
| Mixer.AbsorbAllBalances | src-tauri/src/stage/mixer.rs:164-175 | draining a channel accounts for every sample as kept or dropped, the oldest first |
| Mixer.MixBalances | src-tauri/src/stage/mixer.rs:200-204 | the samples mixed are the oldest buffered, each once |
| Mixer.RunConserves | src-tauri/src/stage/mixer.rs:158-206 | over any run each delivered sample is, in order, mixed once, dropped or still buffered, and at most 5 frames are buffered after a tick |
| Mixer.TickKeepsAccounts | src-tauri/src/stage/mixer.rs:158-206 | a tick keeps every speaker's account balanced, those who leave included |
| Mixer.HostMixer.AddSpeaker | src-tauri/src/stage/mixer.rs:146-150 | a new speaker starts with an empty buffer and account |
| Mixer.HostMixer.Tick | src-tauri/src/stage/mixer.rs:158-249 | buffers and accounts after the tick; sample by sample listeners get the clamped sum of the buffers, the host that of the others, speakers the host's own samples; one packet each at most |
| Framing.RecvStream.ReadExact | src-tauri/src/framing.rs:23-24 | the next bytes, or the error of the stream's end |
| Framing.WriteFrame | src-tauri/src/framing.rs:7-17 | appends the length, truncated to 32 bits, and the data |
| Framing.ReadFrame | src-tauri/src/framing.rs:20-35 | result and bytes left are those of the function the framing lemmas are about |
| Framing.ReadAll | src-tauri/src/device_sync.rs:331-370 | collects frames up to the empty marker or the first error |
| Framing.FrameRoundTrip | src-tauri/src/framing.rs:7-35 | a frame is read back if and only if it has between 1 and 10,000,000 bytes |
| Framing.OversizeRefused | src-tauri/src/framing.rs:27-30 | a longer frame is refused after its length |
| Framing.StreamRoundTrip | src-tauri/src/framing.rs:7-35 | payloads and end marker read back as the same payloads |
| Framing.TruncationDetected | src-tauri/src/framing.rs:20-35 | a truncated stream yields exactly the payloads that arrived whole, and then an error |
| Framing.BigEndianBytes | src-tauri/src/framing.rs:8-25 | lengths are written most significant byte first |
| Framing.WriteAudioFrame | src-tauri/src/audio/transport.rs:37-49 | appends the length, truncated to 16 bits, and the encoded frame |
| Framing.ReadAudioFrame | src-tauri/src/audio/transport.rs:53-74 | result and bytes left are those of the function the audio lemmas are about |
| Framing.AudioInverse | src-tauri/src/audio/transport.rs:12-33 | decoding inverts encoding |
| Framing.AudioLayout | src-tauri/src/audio/transport.rs:12-33 | number, timestamp, tag and payload stand at bytes 0, 4, 8 and 9 |
| Framing.AudioRoundTrip | src-tauri/src/audio/transport.rs:37-74 | an audio frame is read back if and only if header and payload fit the 16-bit length |
| Framing.PacketsFit | src-tauri/src/audio/codec.rs:15-16 | a packet of at most 4000 bytes behind a 96-byte checkpoint is always read back |
| Framing.AudioTruncationDetected | src-tauri/src/audio/transport.rs:53-74 | a truncated audio frame reads as an error, or as no frame when the stream was closed on this side within the length |
| Framing.ShortAudioRefused | src-tauri/src/audio/transport.rs:64-67 | a length below 9 is refused at once |

## Left out

- 32-bit ratchet counters: counters are unbounded naturals; wrap-around would need about 2^32 messages on one chain.
- Ratchet headers on the wire: the hexadecimal conversion of public keys, the JSON of payloads and the encryption of sessions at rest are taken as exact.
- RatchetHeaders.WrongLength: says what a wrong previous length costs from then on; what the stored keys and parties look like later in such a run is not stated, except that no key opens twice.
- Handshakes: the Noise exchange and simultaneous initiations; a run starts from one completed handshake.
- Concurrent sends: each load-encrypt-save is one step.
- DmSessions.DmHandler.HandleEncryptedMessage: the conversation row, delivered and read marks, typing and call events, and storage errors after the save are not modelled.
- DmSessions.DmHandler.EncryptAndSave: without a stored session the source starts a handshake; the model returns an error.
- Delivery status, outbox and acknowledgements of direct messages.
- PeerSync.ReadFrames: device announcement frames are not modelled.
- PeerSync.SyncFromPeer: access control, profiles, stage announcements, and storage errors that the client reads as 0 are not modelled.
- Order among rows of equal timestamp: queries use insertion order, the same on every page.
- Visibility of rows changed on the server while a round is streaming.
- DeviceSync.BuildVector: the counts and newest timestamps of posts and interactions are not modelled.
- DeviceSync.TransferDeltas: the batches of posts and interactions are not modelled; only items newer than the peer's newest are sent, so they do not converge in general.
- DeviceSync.ImportDeltas: frames of posts and interactions are not modelled.
- DeviceSync.SyncWithDevice: the challenge that authenticates the devices is not modelled.
- DeviceSync.DeviceStore.MergeBookmarks: a bookmark's creation time is not kept.
- Follow rows without a follow time.
- DeviceSyncFailures.SyncAllDevices: the list of devices is given; unparsable ids and the 30-second limit appear only as failed sessions.
- Decoder failures in the hub's receive task, stage roles and moderation, and the listener's jitter buffer and loss concealment.
- Mixer.HostMixer.AddSpeaker: a speaker that joins while its old channel is still there is not modelled; the source would feed both channels into one buffer.
- Mixer.HostMixer.Tick: the authentication of each listener packet is modelled in StreamAuth and not composed with the tick; a speaker's loudness value is not modelled.
- Lossy fanout: JoinersVerify is about lossless delivery.
- Opus itself: a packet stands for its frame, encoding may fail, and a codec's internal state is not modelled.
- Floating point: samples are exact numbers.
- Calls, gossip, the HTTP server, the user interface, preferences and single-row operations: they share no state with the protocols above.
