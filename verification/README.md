# HaoVPN, verified

This project models the parts of HaoVPN whose guarantees span several functions, and proves them with
Dafny 4.11. `dafny verify dfyconfig.toml` checks everything.

| part of HaoVPN | files here |
|---|---|
| flow table: sixteen locked shards acting as one map | `FlowTable`, `FlowTracker`, `FlowRuns` |
| tunnel channel: anti-replay window, AEAD packets, frames | `ReplayWindow`, `TunnelSession`, `Framing` |
| session manager: indexes, takeover, packet policy, routing | `SessionState`, `PacketPolicy`, `SessionManager`, `SessionRuns`, `PacketRuns` |
| lifecycles: reconnect loop, engine operations of the client | `Backoff`, `Reconnect`, `EngineQueue`, `EngineRuns` |
| addresses: pool, prefixes, advertised networks | `Addresses`, `IpPool`, `PoolRuns`, `LanPolicy`, `ExitSources` |
| client routes: difference, partial failure | `RouteSync` |
| bounds: login lockout, log throttle, tray tip | `Lockout`, `Throttle`, `TrayTip` |
| shared facts | `Wrappers`, `Arithmetic`, `Bytes`, `Sorting` |

A component that updates its fields is a class here, with one method for each critical section or callback.
The class has a `View()` (or `Table()`, for the flow table), and each method is proved to take that value
where a specification function or relation says. What holds of whole runs is then proved of the
specification: a run is a sequence of states in which each step is one critical section of some goroutine,
in any order, so the main results speak about every interleaving. Clocks, the network, the user store,
route commands and the cipher are parameters: time is an argument of each call, a command either works or
fails, and the AEAD is two functions about which only `Correct` and `OnlySenderSeals` are assumed, where a
lemma names them.

Choices made for the model:

- An IPv4 address is a 32-bit word and a prefix a masked word with a length; map keys that the program
  builds from printed forms use `Dotted` and `Text`, which are proved injective.
- A reference to an `AccountSession` is a session number that is never used again; where the program
  compares references, the model compares numbers.
- The replay filter of the program is a library type whose source is not part of this model. It is written
  from section 2 of RFC 6479, for every block size and ring length. Counter 0 is an ordinary counter.
- Widths are explicit where values wrap: uint64 packet numbers, generations and shard hashes, int64 flow
  counters and durations, bytes of an address.
- `HandleInbound` takes the lock anew for each question it asks; `PacketPolicy.Decide` takes one state for
  each of them.

## Where the code does not do what is said of it

Each of these is a lemma with a concrete run or an exact condition.

- `Pool.Release` is described as making an address available to later calls of `Allocate`
  (internal/ippool/pool.go:103). The cursor does not turn back at the end of the subnet, so a released
  address is found only when it lies less than 256 ahead of the cursor: `PoolRuns.AllocatesIffNear`,
  `PoolRuns.ReleasedIsNotFound`.
- An intent is meant to wait for the operation in progress and is accepted only while one is
  (internal/clientgui/engine_op_queue.go:8, internal/clientgui/engine_intent.go:10-15). Four of the
  callbacks after which the client goes on do not look at the queue, and an intent accepted during them
  outlives its operation:
  `EngineRuns.IntentLeftBehind`, `EngineRuns.QuitLeftWaiting`, `EngineRuns.LeftIntentTakesOver`.
- A queued logout or quit wins over a reconnect (internal/clientgui/engine_op_queue.go:9); one in progress
  does not. It completes only if nothing was queued when it was begun, which on an idle client may be an
  intent left behind as above, and nothing is clicked before its stops are done:
  `EngineRuns.QuitCompletesExactly`, `EngineRuns.LogoutCompletesExactly`, `EngineRuns.OvertakenByClick`,
  `EngineRuns.OvertakenByLeftover`.
- A destination behind a via is said to be served only for a source that has peer access
  (internal/sessionmgr/route_inbound.go:29-30). The path along a managed route asks for none:
  `PacketPolicy.GoesToViaExactly`, `PacketPolicy.ViaNeedsNoPeerAccess`. (The return path of an exported
  network asks for none either, and says so at line 78.)
- HandleInbound and sendToAccount test a session's cipher and use it later without a lock, and RegisterVPN
  clears it. The use is then a call on nil, which panics: `PacketRuns.PanicsExactly`,
  `PacketRuns.InboundPanics`, `PacketRuns.OutboundPanics`.
- Two overlapping registrations of one user lose a session without takeover or disconnect:
  `SessionRuns.FatesExactlyWhen`, `SessionRuns.OverlappingRegistrationsLoseASession`.
- Repeated failures are meant to lock an address out of the administrators' page. The right password of an
  ordinary account sets the count back to one each time: `Lockout.LoginCountsUnlessReset`,
  `Lockout.LoginGuessesPerWindow`, `Lockout.ResetsUndoTheBound`.
- A route whose deletion fails is dropped from the record and never tried again:
  `RouteSync.TruthfulExactly`, `RouteSync.ForgottenStays`.
- The gateway's host route is left out when the policy names it and nothing else covers the gateway:
  `RouteSync.DesiredCoversGateway`.
- The exponential wait doubles in int64 before it is capped, which is exact only for caps below 2^62 ns:
  `Backoff.WaitsDoubleExactlyBelowHalf`. And a wait that is not positive is said to become the smaller of
  the cap and a second (internal/safeutil/retry.go:35); it becomes the cap: `Backoff.NextWait`.

## Model

| member | source | states |
|---|---|---|
| `FlowTable.OneFlowPerConversation` | internal/flowmon/tracker.go:152-167 | For every two packets: an inbound and an outbound one share a flow exactly when one is the reply to the other; two in the same direction exactly when their five-tuples agree |
| `FlowTable.HeaderBytes` | internal/flowmon/tracker.go:140-161 | When a packet has no header that counts, as an equivalence over its bytes; else the addresses are bytes 12-15 and 16-19, the protocol is byte 9, and for TCP and UDP the ports are the first four bytes after the options |
| `FlowTable.ClientSideIsSource` | internal/flowmon/tracker.go:162-166 | The client is src: the sender of a packet on its way in, the receiver of one on its way out, with its port |
| `FlowTable.BumpAdds` | internal/flowmon/tracker.go:205-214 | Size and one packet are added, as int64, in the packet's direction and nothing in the other; lastSeen is now and firstSeen stays |
| `FlowTable.FastKeeps` | internal/flowmon/tracker.go:173-183 | In the single-shard section a key stays if and only if it is in another shard, or this is not the every-th packet of the shard, or it was last seen at now minus ttl or later; a hit is a key that stays, and only the hit one changes |
| `FlowTable.MissMakesRoom` | internal/flowmon/tracker.go:186-203 | On a miss the new flow counts that packet alone; of the user's flows just enough go to make room, none of them seen after one that stays; flows of other users stay as they are |
| `FlowTable.ObservedAndOthersKept` | internal/flowmon/tracker.go:173-203 | After a whole observation its key is in the table, and flows of other users have left only by the purge |
| `FlowTracker.Tracker.constructor` | internal/flowmon/tracker.go:104-120 | Sixteen empty shards that make up the empty flat table; defaults of ten minutes, 512 flows and 256 observations |
| `FlowTracker.Tracker.PurgeShardTTL` | internal/flowmon/tracker.go:230-236 | On the flat table a key stays if and only if it is in another shard or was last seen at the cutoff or later, and no flow changes |
| `FlowTracker.Tracker.CountUser` | internal/flowmon/tracker.go:239-249 | The number of keys of the user in the flat table, counted shard by shard |
| `FlowTracker.Tracker.EvictOldestUser` | internal/flowmon/tracker.go:252-272 | Removes one flow of the user with the earliest lastSeen and nothing else; reports failure exactly when the user has none |
| `FlowTracker.Tracker.BumpFlow` | internal/flowmon/tracker.go:205-214 | One key of the flat table gains the size and one packet in its direction and the new lastSeen; no other key changes |
| `FlowTracker.Tracker.ObserveFast` | internal/flowmon/tracker.go:173-183 | The single-shard section on the flat table: which keys stay, in terms of shard, tick and now minus ttl; a hit exactly when the key stays; what changes; and the tick goes up by one in uint64 |
| `FlowTracker.Tracker.ObserveSlow` | internal/flowmon/tracker.go:186-203 | The all-shards section: bumps on a hit; otherwise evicts as many of the user's oldest flows as needed, then inserts; the eviction loop terminates |
| `FlowTracker.Tracker.ObservePacket` | internal/flowmon/tracker.go:140-203 | Nothing for a packet that does not parse or has no user; else the two sections in a row; the key is in the table afterwards, and flows of other users stay unless the purge takes them for their age |
| `FlowTracker.Tracker.ListShard` | internal/flowmon/tracker.go:346-379 | Purges one shard and copies exactly the live flows of that shard that pass the user, protocol and address filters |
| `FlowTracker.Tracker.FindOldest` | internal/flowmon/tracker.go:252-266 | One of the user's flows with the earliest lastSeen over all shards, compared with each of them; none exactly when the user has none |
| `FlowTracker.Tracker.EvictToFit` | internal/flowmon/tracker.go:194-200 | Exactly as many of the user's flows go as leaves room for one more, none of them seen after one that stays |
| `FlowTracker.Tracker.InsertFlow` | internal/flowmon/tracker.go:201-202 | The flat table gains or replaces that key and keeps all others |
| `FlowRuns.StepWithinCap` | internal/flowmon/tracker.go:173-203 | Every section of any goroutine keeps each user within maxPerUser, summed over all shards |
| `FlowRuns.CapHolds` | internal/flowmon/tracker.go:173-203 | In every interleaving of fast sections, all-shards sections and purges, no user ever has more than maxPerUser flows |
| `FlowRuns.StepKeepsFlow` | internal/flowmon/tracker.go:122-214 | A flow that lives through a section is unchanged, or bumped by exactly that packet when the section saw its key |
| `FlowRuns.CountersExact` | internal/flowmon/tracker.go:122-214 | In every run each live flow has an insertion after which it never left, and its four counters are the sums (as int64) over the packets of its key and direction since; firstSeen and lastSeen are those of the first and last of them |
| `FlowRuns.StepDropsFlow` | internal/flowmon/tracker.go:173-236 | A flow leaves in a section only by a purge of its shard with a later cutoff, and then always, or to make room for a new flow of a user at the limit none of whose remaining flows was seen earlier |
| `FlowRuns.FlowLeaves` | internal/flowmon/tracker.go:173-236 | In every run a flow that leaves was in the table ever since the last packet of its key, and leaves because that packet is older than the purge allows or to make room |
| `ReplayWindow.ValidateCounter` | internal/crypto/wg_crypto.go:171-177 | The ring of bitmap blocks of section 2 of RFC 6479 accepts a counter exactly when it is below the limit, not seen, and either ahead or at most (blocks - 1) * bits behind the highest, and then stands for that set with the counter added; a refusal changes nothing |
| `ReplayWindow.WidestWindow` | internal/crypto/wg_crypto.go:171-177 | (blocks - 1) * bits is the greatest width for which every counter inside the window still has its block in the ring (section 2 of RFC 6479) |
| `ReplayWindow.MoveForward` | internal/crypto/wg_crypto.go:171-177 | Moving to a higher counter clears exactly the blocks passed over: every counter still live keeps its mark |
| `TunnelSession.NonceRoundTrip` | internal/crypto/wg_crypto.go:190-201 | Counter to nonce to counter is the identity on all 64-bit counters |
| `TunnelSession.CounterRoundTrip` | internal/crypto/wg_crypto.go:190-201 | Nonce to counter to nonce is the identity exactly when the first four bytes are zero |
| `TunnelSession.Session.Encrypt` | internal/crypto/wg_crypto.go:144-151 | The packet is the nonce of the current counter followed by the sealed text; the counter goes up by one in uint64 |
| `TunnelSession.Session.Decrypt` | internal/crypto/wg_crypto.go:159-188 | Snapshot, mark, open, commit or roll back equals one step on the set of accepted counters; on any error the filter is the one from before |
| `TunnelSession.WindowIsHistory` | internal/crypto/wg_crypto.go:159-188 | After any packets the window is exactly the set of accepted counters, with their maximum |
| `TunnelSession.AcceptedExactly` | internal/crypto/wg_crypto.go:159-188 | A packet of a run is accepted exactly when it is authentic, below the limit, not accepted before and not more than (blocks - 1) * bits behind an accepted counter |
| `TunnelSession.RefusedExactly` | internal/crypto/wg_crypto.go:159-188 | Why a packet of a run is refused, each as an equivalence: too short for nonce and tag; the counter in its bytes 4-11 at the limit, accepted before or too far behind; or a text that does not open. What is delivered is what the AEAD gives |
| `TunnelSession.AcceptedOnce` | internal/crypto/wg_crypto.go:159-188 | In every run each counter is accepted at most once |
| `TunnelSession.RefusedLeavesNoTrace` | internal/crypto/wg_crypto.go:166-186 | Taking a refused packet out of a run changes the outcome of no other packet |
| `TunnelSession.DeliveredWasSentOnce` | internal/crypto/wg_crypto.go:144-188 | With an ideal AEAD, whatever the network reorders, repeats, drops or forges, what is delivered is the text sent under that counter, at most once |
| `TunnelSession.GenuineIsDelivered` | internal/crypto/wg_crypto.go:144-188 | A genuine packet is delivered unless a copy was seen or a genuine packet more than (blocks - 1) * bits ahead of it; forgeries never use up its counter |
| `Framing.Decoder.Feed` | internal/transport/frame.go:110-134 | Fails if and only if buffer plus data is the encodings of some legal frames followed by four bytes whose big-endian value is 0 or above 0x100000, and reports that value; else returns the frames, and what is kept is shorter than four bytes or the beginning of a legal frame |
| `Framing.ParseResumes` | internal/transport/frame.go:110-134 | Parsing a then b from what a left over is parsing a + b, for all bytes |
| `Framing.ChunkingIsInvisible` | internal/transport/frame.go:110-134 | For every split of a stream: a call has failed exactly when the whole stream is malformed, the buffer is the whole stream's rest, and without a failure the frames are the whole stream's |
| `Framing.ErrorIsSticky` | internal/transport/frame.go:117-120 | Once the buffer starts with a bad length every later call fails with it, and nothing leaves the buffer |
| `Framing.StreamFailsExactly` | internal/transport/frame.go:110-134 | The same for whole connections, for every split of the stream |
| `Framing.FailureReturnsNothing` | internal/transport/frame.go:117-120 | The frames returned in all are those of the calls before the first failure |
| `Framing.WireFormat` | internal/transport/frame.go:74-86 | A frame is the big-endian length of kind and payload, the kind and the payload; an error exactly when that length is above 0x100000 |
| `Framing.DecodeEncoded` | internal/transport/frame.go:74-134 | Encodings of legal frames, followed by any bytes, decode to those frames in order and then whatever the bytes give |
| `Framing.FramesArrive` | internal/transport/frame.go:74-134 | For any sequence of legal frames and any split of their encodings, a fresh decoder yields exactly those frames, an empty buffer and no failure |
| `Framing.ParseAccountsForInput` | internal/transport/frame.go:74-134 | Frames re-encoded plus the leftover are the input, and the leftover holds no further whole frame |
| `SessionState.StaleAfter` | internal/sessionmgr/register_grace.go:23-37 | The grace period, held between 8 and 20 seconds; 20 seconds without one |
| `SessionState.DisplacedOnlyWhenSilent` | internal/sessionmgr/register_grace.go:23-52 | Under reject-second a peer heard less than 8 seconds ago is never displaced from another host, and one silent for 20 seconds or more always may be |
| `SessionState.ViaOrder` | internal/sessionmgr/register_lan.go:171-177 | The order of the index: printed networks by the first character in which they differ, equal networks by account number |
| `SessionState.SortedIsViaIndex` | internal/sessionmgr/register_lan.go:157-179 | Whatever order the session map is walked in, collecting and sorting gives a sorted listing of all online routes, each as often as it occurs |
| `SessionState.ViaIndexUnique` | internal/sessionmgr/register_lan.go:157-187 | There is only one such listing: the index depends on the sessions alone |
| `SessionState.ViaIndexMembers` | internal/sessionmgr/register_lan.go:157-179 | A route is in the index exactly when some online session installed it |
| `SessionManager.Manager.ParseViaRoutes` | internal/sessionmgr/register_lan.go:135-151 | Fails exactly when some destination does not parse; else exactly the routes with a via account, in the order given |
| `SessionManager.Manager.RebuildViaIndex` | internal/sessionmgr/register_lan.go:157-179 | The index becomes the sorted listing of the online sessions' routes |
| `SessionManager.Manager.RegisterBegin` | internal/sessionmgr/register.go:68-114 | Under reject-second an online user is refused if and only if there is no grace, or the hosts differ or are empty and the peer never reported activity or was heard less than the grace ago, held between 8 and 20 seconds; never under kick-previous; else takes it out of both maps, clears its cipher and hands on its byte counts under reject-second |
| `SessionManager.Manager.RegisterFinish` | internal/sessionmgr/register.go:142-149 | Puts the new session under its user and address, records the owner of the address, rebuilds the index |
| `SessionState.AttachExactly` | internal/sessionmgr/register.go:142-149 | Key by key, who is online, under which address, and who owns which address once a session has been put in |
| `SessionState.LeaveExactly` | internal/sessionmgr/register.go:87-111 | And once one has been taken out: only its user and its address go; only a registration clears the cipher |
| `SessionManager.Manager.RemoveIfConn` | internal/sessionmgr/register.go:210-229 | Only the session still bound to that connection goes, with its address and one disconnect call; otherwise nothing changes |
| `SessionManager.Manager.KickUser` | internal/sessionmgr/kick.go:17-44 | The user's session goes with its address and one disconnect call, and its connection is given back to be closed; no session, no change; the kick handler is called in both cases |
| `SessionManager.Manager.PruneViaRoutes` | internal/sessionmgr/register_lan.go:87-132 | Every online session loses exactly its routes through that via that are not in the registry; the users who lost one are returned; the index is rebuilt |
| `SessionManager.PrunedExactly` | internal/sessionmgr/register_lan.go:87-132 | Of each route an online session keeps all copies or none: it keeps those of other vias and those the registry still names; nothing else changes |
| `SessionManager.LosersExactly` | internal/sessionmgr/register_lan.go:87-132 | Reported are exactly the online users who had a route through that via for a network no longer in the registry |
| `SessionManager.Manager.SendToAccount` | internal/sessionmgr/route.go:60-85 | Sends, and uses a packet number, only for a session that is still the registered one; otherwise nothing changes |
| `SessionManager.Manager.RouteOutbound` | internal/sessionmgr/route.go:27-54 | The packet goes to the owner of the address, else to the first online via whose network covers it, else nowhere; at most one packet leaves |
| `SessionManager.Manager.HandleInbound` | internal/sessionmgr/route_inbound.go:32-133 | A frame of a connection that is not the session's changes nothing; an undecryptable one only reports; otherwise the verdict is carried out: counted, sent to one peer, written to the TUN, or dropped |
| `SessionManager.HandledExactly` | internal/sessionmgr/route_inbound.go:65-132 | Field by field for every account: received bytes count for the sender unless the packet was dropped or out of bounds, which is counted by itself; the peer sent to uses one packet number, and sent bytes count if its connection took them; all else stays |
| `PacketPolicy.StrangerIsBlocked` | internal/sessionmgr/route_inbound.go:65-132 | A sender that is no via and has no peer access, via relation or global peering towards B gets nothing through to B's address, neither to a session nor to the TUN, even if the state changes between any two of the questions asked |
| `PacketPolicy.AddressBytes` | internal/sessionmgr/route_inbound.go:61-62 | Source and destination are bytes 12-15 and 16-19 of the packet, high byte first |
| `PacketPolicy.AnswerIsDelivered` | internal/sessionmgr/route_inbound.go:78-89 | A packet from a network that the account exports, while the account is the via of some managed route, to the address of an online session of another user goes to that session, whatever is granted or allowed |
| `PacketPolicy.DropExactly` | internal/sessionmgr/route_inbound.go:52-99 | The packets dropped at once, as an equivalence over packet, policy and tables: no IPv4, a source that is neither the account's address nor in a network it exports, or another account's address without a grant and without being such an answer |
| `PacketPolicy.OverreachExactly` | internal/sessionmgr/route_inbound.go:100-111 | Out of bounds if and only if not dropped, no such answer, and a destination that is neither the account's address nor in its allowed networks |
| `PacketPolicy.LeastRouteIsChosen` | internal/sessionmgr/route.go:27-54 | Outbound: the owner of the address; else the via of the covering online route that is first in printed order of network, then of account, among all routes of all online sessions; nowhere only if there is no such route |
| `PacketPolicy.BlockedExactly` | internal/sessionmgr/route_policy.go:17-84 | A packet with a permitted source for B's address is dropped exactly when there is neither a grant nor an answer from an exported network |
| `PacketPolicy.ReachesPeerOnlyIf` | internal/sessionmgr/route_inbound.go:65-132 | Every way a packet can end at another account's session: global peering, a grant, a managed route, or the return path of an exported network; always with a permitted source, and inside the policy except on that return path |
| `PacketPolicy.GrantedIsDelivered` | internal/sessionmgr/route_inbound.go:96-132 | With a grant, a permitted source and destination and the peer online, the packet does go to that peer |
| `PacketPolicy.FirstOnlineViaIsARoute` | internal/sessionmgr/route_lookup.go:35-49 | The via chosen is that of the first route that covers the destination and whose account is online |
| `PacketPolicy.GoesToViaExactly` | internal/sessionmgr/route_lookup.go:35-49 | A packet for no other account's address, and no answer to a peer, goes to a via if and only if source and destination are permitted and the via's is the first route that covers the destination and is online |
| `PacketPolicy.ViaNeedsNoPeerAccess` | internal/sessionmgr/route_inbound.go:127-131 | A packet of a sender without any peer access that goes to the via |
| `PacketPolicy.ReachesTUNExactly` | internal/sessionmgr/route_inbound.go:65-132 | A packet reaches the TUN if and only if it has a permitted source and destination, is for no other account's address and no answer to a peer, and no online via serves it |
| `PacketPolicy.RouteTargetDeterministic` | internal/sessionmgr/route.go:27-54 | Two states with the same sessions, accounts and addresses send a packet to the same session |
| `SessionRuns.AttachKeepsByIP` | internal/sessionmgr/register.go:142-149 | A new session keeps byIP exactly the online sessions by address if and only if no online session has its address |
| `SessionRuns.OwnerChangeKeepsByIP` | internal/sessionmgr/manager.go:195-206 | Changing the owner of an address keeps the indexes in agreement if and only if no session of somebody else is online under it |
| `SessionRuns.FinishKeepsFates` | internal/sessionmgr/register.go:142-149 | Putting a session in loses none if and only if its user had none |
| `SessionRuns.OrderlyRunKeepsInvariant` | internal/sessionmgr/register.go:68-229 | In every interleaving with one registration per user at a time and distinct addresses: at most one session per user, byIP exactly the online sessions by address, each session ever registered online, taken over without a disconnect, or disconnected once, exactly one of these; the via index right unless a registration is between its sections |
| `SessionRuns.RunIsCoherent` | internal/sessionmgr/register.go:68-229 | In every such run packets are judged on indexes that agree |
| `SessionRuns.IndexedWhenSettled` | internal/sessionmgr/register_lan.go:157-179 | With no registration between its sections the via index is the one sorted listing of the online sessions' routes |
| `SessionRuns.FatesExactlyWhen` | internal/sessionmgr/register.go:68-229 | In every run, orderly or not: each session ever registered is in exactly one of the three states if and only if every registration found its user offline when it put its session in |
| `SessionRuns.OverlappingRegistrationsLoseASession` | internal/sessionmgr/register.go:68-149 | A run of two overlapping registrations of one user, after which the first session is in none of them |
| `SessionRuns.OfflineForever` | internal/sessionmgr/register.go:68-229 | A session that is out is never the current one again |
| `PacketRuns.StaleIsDropped` | internal/sessionmgr/route_inbound.go:45-51 | A frame whose session was replaced before the second check is dropped there, and a packet picked for it before sendToAccount's identity check is not sent |
| `PacketRuns.WindowMovesOnlyForOwnFrames` | internal/sessionmgr/route_inbound.go:32-51 | In every run a session's replay window moves only for a frame that arrived on its own connection |
| `PacketRuns.DeliveredWasRechecked` | internal/sessionmgr/route_inbound.go:45-51 | In every run each packet passed on was checked again at a step where its session was online on its connection; no takeover of the session precedes that step |
| `PacketRuns.SentWasChecked` | internal/sessionmgr/route.go:64-71 | In every run each packet encrypted for a session passed the identity check at a step where the session was online; no takeover precedes it |
| `PacketRuns.CipherGoneExactly` | internal/sessionmgr/register.go:74-113 | Between two states of any run a session loses its cipher if and only if a registration takes it out |
| `PacketRuns.PanicsExactly` | internal/sessionmgr/route_inbound.go:37-40 | A goroutine that tested a session's cipher and uses it later calls on nil if and only if a registration of that user took the session out in between; for HandleInbound and for sendToAccount |
| `PacketRuns.InboundPanics` | internal/sessionmgr/route_inbound.go:37-40 | A run in which it happens to a frame on its way in |
| `PacketRuns.OutboundPanics` | internal/sessionmgr/route.go:61-71 | A run in which it happens to a packet on its way out, after the identity check |
| `PacketRuns.StrangerNeverGetsThrough` | internal/sessionmgr/route_inbound.go:32-133 | In no run, end to end: while an account has no way to B, nothing it sends for B's address is encrypted for any session or written to the TUN, however its goroutines interleave with everything else |
| `Backoff.WaitsDoubleUpToMax` | internal/safeutil/retry.go:38-50 | With 0 < initial <= max < 2^62 ns the k-th wait is min(initial * 2^k, max) |
| `Backoff.NextWait` | internal/safeutil/retry.go:38-50 | One step for every input: the cap, or a second without one, for a wait that is not positive; else the double, wrapping in int64, and at most the cap |
| `Backoff.WaitsDoubleExactlyBelowHalf` | internal/safeutil/retry.go:38-50 | And exactly for those: from 2^62 ns on some wait differs, because the doubling leaves int64 |
| `Reconnect.ReconnectClient.Start` | internal/transport/reconnect.go:77-83 | The first call starts the loop, any other changes nothing |
| `Reconnect.ReconnectClient.LookAtStop` | internal/transport/reconnect.go:91-158 | Each look at the stop channel: leave, closing the connection in hand, or go on |
| `Reconnect.ReconnectClient.Dial` | internal/transport/reconnect.go:97-117 | A new open connection; a fatal error ends the loop, any other leads to a wait |
| `Reconnect.ReconnectClient.StoreConn` | internal/transport/reconnect.go:127-129 | The connection becomes the one Stop closes |
| `Reconnect.ReconnectClient.Wait` | internal/transport/reconnect.go:142-147 | Stop closes the connection and ends the loop; the end of the connection goes on |
| `Reconnect.ReconnectClient.ClearEnded` | internal/transport/reconnect.go:148-152 | Forgets the ended connection, and only that one |
| `Reconnect.ReconnectClient.Sleep` | internal/transport/reconnect.go:112-116 | Doubles the wait after a failed dial, resets it after a lost connection, or leaves when stopped |
| `Reconnect.ReconnectClient.StopMustWait` | internal/transport/reconnect.go:201-204 | Stop waits for the loop exactly when it was ever started |
| `Reconnect.ReconnectClient.StopCloseConn` | internal/transport/reconnect.go:196-200 | The stored connection, if any, is closed |
| `Reconnect.RunKeepsInvariant` | internal/transport/reconnect.go:77-214 | The invariant behind the next three holds in every interleaving of the loop with any number of Start and Stop calls |
| `Reconnect.OneLoopOneConnection` | internal/transport/reconnect.go:77-214 | At most one loop, at most one open connection, and none once the loop has exited |
| `Reconnect.NothingAfterCleanStop` | internal/transport/reconnect.go:194-214 | After a Stop that did not time out, onConnect is not running and never runs again, and nothing is dialled |
| `Reconnect.NothingAfterStopReturned` | internal/transport/reconnect.go:194-214 | The same said of the step at which Stop returns |
| `Reconnect.StopClosesCurrent` | internal/transport/reconnect.go:194-200 | While onConnect runs or the loop waits, the connection that Stop closes is the one in use |
| `Reconnect.EndedOnlyBy` | internal/transport/reconnect.go:84-158 | The loop has ended only after a Stop or a fatal dial error |
| `Reconnect.LoopEndsExactly` | internal/transport/reconnect.go:84-158 | The steps at which it ends, as an equivalence |
| `Reconnect.StopEndsTheLoop` | internal/transport/reconnect.go:84-158 | After the stop signal the loop takes at most six more steps of its own, in every interleaving |
| `Reconnect.StopNeverBlocks` | internal/transport/reconnect.go:84-178 | And until it has ended one of them is always possible |
| `Reconnect.OpenExactly` | internal/transport/reconnect.go:97-158 | Which step opens or closes a connection |
| `Reconnect.WaitedWasCalled` | internal/transport/reconnect.go:130-147 | In every run onConnect ran for each connection the loop waits for, if there is a callback |
| `Reconnect.SleepsBetweenDials` | internal/transport/reconnect.go:97-156 | Between two dials the loop has always slept |
| `Reconnect.KthWait` | internal/transport/reconnect.go:112-126 | In every run the wait after k failed dials since the last connection is min(initial * 2^(k - 1), max), and 200 ms after the end of a connection |
| `EngineQueue.UiApp.SetPending` | internal/clientgui/engine_op_queue.go:29-47 | Accepted only while busy; a reconnect, which counts, never replaces a queued logout or quit; every other accepted intent raises the generation (a uint64) |
| `EngineQueue.UiApp.TakePending` | internal/clientgui/engine_op_queue.go:50-56 | Gives the queued intent and empties the queue |
| `EngineQueue.UiApp.ClearEngineIf` | internal/clientgui/engine_stop.go:89-97 | Unmounts that engine and no other |
| `EngineQueue.UiApp.StopEnginesSerial` | internal/clientgui/engine_stop.go:120-150 | Queues one background task that stops the engines there are, in order |
| `EngineQueue.UiApp.Ask` | internal/clientgui/engine_intent.go:78-86 | A restart goes on unless the generation moved or a logout or quit is queued |
| `EngineQueue.UiApp.StartEngine` | internal/clientapp/hard_restart.go:99-104 | A failed Start still hands its engine back, with the error |
| `EngineQueue.UiApp.DispatchPending` | internal/clientgui/reconnect_dns.go:100-138 | Hands the mounted engine and the orphan to one chain of stops, with the continuation of that intent |
| `EngineQueue.UiApp.FinishHardRestart` | internal/clientgui/reconnect_dns.go:33-79 | Superseded, aborted, failed or mounted: the new state in each case |
| `EngineQueue.UiApp.FinishHardRestartWithOrphan` | internal/clientgui/reconnect_dns.go:82-97 | A queued intent takes the orphan with it; else the orphan is stopped; else the operation ends |
| `EngineQueue.UiApp.ApplyPending` | internal/clientgui/engine_intent.go:91-98 | Carries out the queued intent, if there is one |
| `EngineQueue.UiApp.ReconnectVPN` | internal/clientgui/tray.go:245-263 | Starts a restart, or queues one while busy |
| `EngineQueue.UiApp.QuitApp` | internal/clientgui/tray.go:265-282 | Starts stopping the mounted engine, or queues a quit while busy |
| `EngineQueue.UiApp.DoLogout` | internal/clientgui/app.go:159-178 | Starts stopping the mounted engine, or queues a logout while busy |
| `EngineQueue.UiApp.TryConnect` | internal/clientgui/login.go:137-154 | Mounts a new engine, or first stops the one that is left |
| `EngineQueue.UiApp.FinishLoginFailure` | internal/clientgui/login_fail.go:17-44 | Takes the failed engine, and only that one, and stops it |
| `EngineRuns.OneOperationAtATime` | internal/clientgui/engine_stop.go:16-45 | In every run at most one operation, so at most one HardRestart, is under way; while it is, no engine is mounted, so mounting never overwrites one |
| `EngineRuns.EveryEngineInOnePlace` | internal/clientgui/reconnect_dns.go:33-138 | In every run each engine ever started is in exactly one place: mounted, in the hands of one task, or told to stop, once |
| `EngineRuns.MountsExactly` | internal/clientgui/reconnect_dns.go:33-79 | The engine of a finished HardRestart is mounted if and only if it started and no intent waits; then none was accepted since the restart began and the generation stands; otherwise it is exactly what the next chain stops |
| `EngineRuns.LookedBeforeStart` | internal/clientapp/hard_restart.go:79-98 | In every run a restart that is about to start an engine has just looked, and found the generation unchanged and no logout or quit queued |
| `EngineRuns.HandsWhatStarted` | internal/clientapp/hard_restart.go:99-104 | In every run the engine that a restart hands back, and the error with it, are those of its Start |
| `EngineRuns.RestartEndsExactly` | internal/clientgui/reconnect_dns.go:33-138 | The whole state after a finished HardRestart: the queued intent is taken, with its own continuation once the started engine is stopped; with none, the engine is mounted, or a failed one stopped, or the client idle |
| `EngineRuns.ChainEndsExactly` | internal/clientgui/reconnect_dns.go:88-138 | The whole state after each kind of chain of stops |
| `EngineRuns.QuitLeavesNothing` | internal/clientgui/app.go:226-232 | When the application quits, every engine it ever started was told to stop exactly once and no task is left |
| `EngineRuns.EndingIntentIsCarriedOut` | internal/clientgui/engine_op_queue.go:33-46 | A queued logout or quit stays queued, as one of the two, until one of them is carried out |
| `EngineRuns.QueuedReconnectIsLatest` | internal/clientgui/engine_op_queue.go:38-45 | A reconnect in the queue is the latest one clicked while busy, with its credentials |
| `EngineRuns.IntentLeftBehind` | internal/clientgui/reconnect_dns.go:88-120 | An operation ends with an intent still queued if and only if its last callback is one that does not look at the queue and an intent was queued |
| `EngineRuns.QuitLeftWaiting` | internal/clientgui/reconnect_dns.go:108-120 | And it happens: logout, logout, quit leaves the client idle with the quit forgotten |
| `EngineRuns.LeftIntentTakesOver` | internal/clientapp/hard_restart.go:79-98 | A reconnect asked of an idle client with such an intent starts no engine: it ends in the logout or quit left behind |
| `EngineRuns.QuitCompletesExactly` | internal/clientgui/tray.go:265-282 | In every run a quit begun on the idle client ends in quitting if and only if nothing was queued when it was clicked and nothing was clicked until its stops were done; otherwise the intent queued last is carried out in its place |
| `EngineRuns.LogoutCompletesExactly` | internal/clientgui/app.go:159-178 | The same for a logout, clicked or asked for by a failing data plane |
| `EngineRuns.QueuedCompletes` | internal/clientgui/reconnect_dns.go:102-120 | A logout or quit taken from the queue, by contrast, always completes |
| `EngineRuns.OvertakenByClick` | internal/clientgui/engine_intent.go:91-98 | A run in which a reconnect clicked meanwhile takes the place of a quit, and one for a logout |
| `EngineRuns.OvertakenByLeftover` | internal/clientgui/engine_intent.go:91-98 | A run in which nothing is clicked after the quit (or logout), and a reconnect left behind by a failed login mounts a new engine instead |
| `EngineQueue.UiApp.StopPrior` | internal/clientapp/hard_restart.go:79-81 | A restart tells the engine it was given, if any, to stop |
| `EngineQueue.UiApp.StopNext` | internal/clientgui/engine_stop.go:133-149 | A chain tells its next engine to stop |
| `EngineQueue.UiApp.Callback` | internal/clientgui/reconnect_dns.go:22-27 | What a finished restart or chain does on the UI thread |
| `EngineQueue.UiApp.AfterChain` | internal/clientgui/reconnect_dns.go:88-137 | The continuation of each kind of chain: whether the queue is looked at, what is let go, what comes next |
| `IpPool.IncIP` | internal/ippool/pool.go:126-133 | In place: the address value plus one, modulo the address width, with the carry through all bytes |
| `IpPool.SubnetIsRange` | internal/ippool/pool.go:70-71 | The addresses of a subnet are the block of 2^(bits - len) that starts at its network address |
| `IpPool.Pool.constructor` | internal/ippool/pool.go:33-48 | Empty pool, cursor one past the network address |
| `IpPool.Pool.Allocate` | internal/ippool/pool.go:66-79 | The first of the 256 addresses from the cursor that is in the subnet, unreserved and unowned, and the cursor one past it; or failure exactly when there is none, and the cursor past all 256 |
| `IpPool.Pool.AllocateSpecific` | internal/ippool/pool.go:86-101 | Not in the pool, taken or reserved: an error and no change; else the address is the peer's |
| `PoolRuns.SpecificExactly` | internal/ippool/pool.go:86-101 | A named address is given exactly when it is in the pool, unreserved and owned by nobody else; every other ownership stays |
| `PoolRuns.OwnerKeepsAddress` | internal/ippool/pool.go:66-112 | In every run an address owned by a nonzero peer stays that peer's until it is released, whatever is allocated meanwhile |
| `PoolRuns.OnlyPoolAddresses` | internal/ippool/pool.go:66-101 | Every address handed out lies in the subnet |
| `PoolRuns.StepKeepsDisjointIff` | internal/ippool/pool.go:55-112 | Reserved and allocated stay disjoint unless an address already handed out is reserved, and exactly then not |
| `PoolRuns.ReservationsFirst` | internal/ippool/pool.go:55-79 | With all reservations made first, no reserved address is ever handed out |
| `PoolRuns.AllocatesIffNear` | internal/ippool/pool.go:66-79 | Allocate succeeds if and only if a usable address lies less than 256 ahead of the cursor, going round at the address width |
| `PoolRuns.AllocatesNearest` | internal/ippool/pool.go:66-79 | Of the free addresses less than 256 ahead the nearest is handed out and the cursor goes just past it; with none the cursor goes 256 on and nothing else changes |
| `PoolRuns.ReleasedIsNotFound` | internal/ippool/pool.go:69-77 | The cursor does not turn back at the end of the subnet: a /30 hands out three addresses, one is released, and the next call fails |
| `LanPolicy.OverlapIsShared` | internal/netutil/addr.go:259-269 | CIDRsOverlap is true if and only if some address is in both prefixes, for both families; an error exactly when one does not parse |
| `LanPolicy.PrivateBlocks` | internal/netutil/addr.go:147-162 | IsRFC1918 is membership in 10/8, 172.16/12 or 192.168/16 (section 3 of RFC 1918) |
| `LanPolicy.PrivateFromNetwork` | internal/netutil/addr.go:247-251 | From /16 on, a private network address means that all addresses are private |
| `LanPolicy.SixteenIsLeast` | internal/netutil/addr.go:164-166 | And 16 is the least bound for which this is true of all longer prefixes |
| `LanPolicy.AcceptedExactly` | internal/netutil/addr.go:228-253 | Accepted if and only if IPv4, /16 or longer, and all of its addresses private; otherwise which error |
| `LanPolicy.ValidateAdvertisedLANNotForbidden` | internal/netutil/addr.go:276-296 | Accepted if and only if that and it shares no address with any forbidden prefix that parses |
| `LanPolicy.ValidLANCIDRsNotForbidden` | internal/netutil/addr.go:301-311 | The acceptable networks among the input, deduplicated in order |
| `LanPolicy.FilterExactly` | internal/netutil/addr.go:301-311 | The list holds a network if and only if it was given and is acceptable |
| `LanPolicy.DedupInOrderOfArrival` | internal/netutil/addr.go:55-67 | Longer input only adds at the end: elements stand in the order they first came |
| `ExitSources.PoolSourceIsOwn` | internal/sessionmgr/route_policy.go:17-30 | If exported networks were accepted with the pool forbidden, the only pool address that passes as a source is the account's own, and every other source that passes is private |
| `ExitSources.NobodySpeaksForAnother` | internal/sessionmgr/route_policy.go:17-30 | So a packet under another account's pool address is dropped in every state |
| `RouteSync.NormalizeCIDRs` | internal/netutil/ipmatch.go:147-168 | The parsable routes, each once: in printed order with Sort, in order of first occurrence without |
| `RouteSync.NormalizeCIDRList` | internal/clientapp/policy_diff.go:22-24 | The parsable routes, each once, in printed order |
| `RouteSync.RouteSetDiff` | internal/clientapp/policy_diff.go:53-75 | The sorted listings of what is wanted but not installed, and the other way round |
| `RouteSync.DiffIgnoresOrder` | internal/clientapp/policy_diff.go:62-74 | The result is the same for every walk of the two sets, and depends on the routes alone |
| `RouteSync.RouteListsEqual` | internal/clientapp/policy_diff.go:94-110 | True if and only if the two lists spell the same routes |
| `RouteSync.DesiredClientRoutes` | internal/clientapp/policy_diff.go:28-46 | The sorted listing of the policy without the gateway's own host route, plus that route when nothing covers the gateway |
| `RouteSync.DesiredCoversGateway` | internal/clientapp/policy_diff.go:28-46 | The result reaches the gateway if and only if the policy does not name the gateway's host route or covers the gateway by another entry |
| `RouteSync.DesiredExactly` | internal/clientapp/policy_diff.go:28-46 | Route by route: the policy's, except the gateway's own host route, which is there if and only if no entry contains the gateway |
| `RouteSync.HostRouteNeeded` | internal/clientapp/runtime_routes.go:87-97 | Needed exactly when no entry contains the gateway |
| `RouteSync.Runtime.InstallRouteList` | internal/clientapp/runtime_routes.go:19-32 | Record and kernel gain exactly the routes whose command worked, and the counts say so |
| `RouteSync.Runtime.SyncRoutesDiff` | internal/clientapp/runtime_routes.go:54-83 | Record, kernel and the three counts after deleting and adding the differences, whichever commands fail; the record is sorted without repeats |
| `RouteSync.Runtime.ClearRoutesOnly` | internal/clientapp/runtime_routes.go:132-148 | The record is empty and every recorded route whose deletion worked is gone |
| `RouteSync.SyncedExactly` | internal/clientapp/runtime_routes.go:54-83 | Route by route, whichever commands fail: what is recorded and what the kernel holds after a synchronization |
| `RouteSync.InstalledExactly` | internal/clientapp/runtime_routes.go:19-148 | The same for installing and clearing |
| `RouteSync.RecordAfterSync` | internal/clientapp/runtime_routes.go:54-83 | The record is the wanted set minus exactly the additions that failed |
| `RouteSync.SyncReconciles` | internal/clientapp/runtime_routes.go:54-83 | With record and kernel equal and nothing failing both become the wanted set, and a second call adds and deletes nothing |
| `RouteSync.ClearUndoesInstall` | internal/clientapp/runtime_routes.go:19-148 | Clearing takes out exactly what installing put in |
| `RouteSync.TruthfulExactly` | internal/clientapp/runtime_routes.go:57-63 | Record and kernel agree afterwards if and only if no deletion failed and everything forgotten before was put back |
| `RouteSync.RecordedIsInstalled` | internal/clientapp/runtime_routes.go:19-148 | In every run of installs, syncs and clears a recorded route is really in the kernel |
| `RouteSync.ForgottenStays` | internal/clientapp/runtime_routes.go:57-69 | A route whose deletion failed is never deleted again: it stays until a list wants it |
| `Lockout.Service.CheckLocked` | internal/auth/lockout.go:26-42 | Locked exactly before the recorded time; an expired lock is dropped with its count |
| `Lockout.Service.RecordFailure` | internal/auth/lockout.go:45-56 | One more failure, and at the limit a lock for the lockout time |
| `Lockout.Service.VerifyCredentials` | internal/auth/login.go:88-111 | Lock check first, then the store, then the password: the answer and the entry of that realm and address; no other entry changes |
| `Lockout.AnswersExactly` | internal/auth/login.go:88-111 | Locked, accepted or bad, each as an equivalence, and the entry afterwards: kept, cleared, or one failure more, from one again if a lock had run out, with a lock of lockoutSec seconds from maxAttempts on |
| `Lockout.OthersDoNotMatter` | internal/auth/lockout.go:18-63 | What is kept for a realm and address is what it would be if no call for any other had been made |
| `Lockout.OthersDoNotCount` | internal/auth/lockout.go:18-63 | And so are the answers |
| `Lockout.GuessesPerWindow` | internal/auth/login.go:88-111 | After any history, in any stretch shorter than the lockout without a success, a realm and address is answered "bad credentials" at most maxAttempts times, and every other call of it is refused as locked |
| `Lockout.LockedAfterMax` | internal/auth/lockout.go:45-56 | After any history without a lock, and consecutive failures then, the next call is refused if and only if the count has reached maxAttempts and the lockout counted from the last failure is not over, right password or not |
| `Lockout.FreshAfterLock` | internal/auth/lockout.go:34-41 | A lock that has run out leaves nothing behind, whatever led to it: the next call fares as if none had been made before |
| `Lockout.Service.Login` | internal/auth/login.go:65-83 | An ordinary account's right password clears the count, is counted as one failure and answered as bad credentials |
| `Lockout.LoginCountsUnlessReset` | internal/auth/login.go:65-75 | On that page an answer of bad credentials raises the count by one, exactly unless it was such a reset of a nonzero count |
| `Lockout.LoginGuessesPerWindow` | internal/auth/login.go:65-83 | In a window without an administrator's success there are at most maxAttempts such answers for each stretch between resets |
| `Lockout.ResetsUndoTheBound` | internal/auth/login.go:70-75 | And no bound with them: wrong passwords in turn with an ordinary account's right one are never refused |
| `Throttle.AllowEvery` | internal/safeutil/throttle.go:16-26 | Undisturbed: allowed if and only if d is not positive, nothing was granted yet, or the last grant is at least d ago, and then the time is stored; without an atomic always |
| `Throttle.Limiter.Load` | internal/safeutil/throttle.go:20-24 | The load: too soon ends the call, otherwise the value read is kept for the swap |
| `Throttle.Limiter.TrySwap` | internal/safeutil/throttle.go:25-25 | The swap: granted, and the time stored, exactly when the value is still the one read |
| `Throttle.GrantsSpan` | internal/safeutil/throttle.go:16-26 | In every interleaving of callers grants i and j are at least (j - i) * d apart |
| `Throttle.LostToAnother` | internal/safeutil/throttle.go:21-25 | A call that reached the swap is refused if and only if another was granted since it looked |
| `TrayTip.DecodeEncode` | internal/clientgui/tray_tooltip.go:196-212 | Decoding the UTF-16 units of a text gives the text back (section 2.1 of RFC 2781) |
| `TrayTip.LenCounts` | internal/clientgui/tray_tooltip.go:152-154 | utf16Len is the sum of the characters' widths |
| `TrayTip.FitIsLongest` | internal/clientgui/tray_tooltip.go:196-212 | Fit counts the longest prefix within the budget |
| `TrayTip.TruncateIsLongestPrefix` | internal/clientgui/tray_tooltip.go:196-212 | Truncation gives the longest prefix of the text within any budget: no surrogate pair is split and no character that fits is lost |
| `TrayTip.EllipsizeUTF16` | internal/clientgui/tray_tooltip.go:157-193 | The two shortening loops give the longest head within half the budget and the longest tail of the last characters within what is left |
| `TrayTip.EllipsizeFits` | internal/clientgui/tray_tooltip.go:157-193 | At most maxUnits units, for every text and budget |
| `TrayTip.EllipsizeLeavesOneGap` | internal/clientgui/tray_tooltip.go:157-193 | A shortened text is a prefix, the ellipsis and a suffix that do not meet |
| `TrayTip.EllipsizeExactly` | internal/clientgui/tray_tooltip.go:157-193 | The head is the longest of at most half the budget, the tail the longest of the last characters that fits into what is left |
| `TrayTip.FitTipLines` | internal/clientgui/tray_tooltip.go:127-150 | The loop gives the brand, the cut first line, or the lines kept |
| `TrayTip.NonBlankExactly` | internal/clientgui/tray_tooltip.go:127-150 | The lines that count are the given ones that are not blank, trimmed |
| `TrayTip.TrimExactly` | internal/clientgui/tray_tooltip.go:127-150 | Trimming takes the spaces at both ends, all of them and nothing else |
| `TrayTip.FittedExactly` | internal/clientgui/tray_tooltip.go:127-150 | At most 63 units; as many whole lines as fit, in order, unless the first is too long by itself |
| `TrayTip.FormatTrayTooltip` | internal/clientgui/tray_tooltip.go:37-59 | The text of each state |
| `TrayTip.FixedTexts` | internal/clientgui/tray_tooltip.go:37-59 | The texts that do not depend on a connection, word by word |
| `TrayTip.ConnectedExactly` | internal/clientgui/tray_tooltip.go:63-124 | The text of a connection: brand and address, the time if it fits, the host if four units are left for it |
| `TrayTip.TooltipFits` | internal/clientgui/tray_tooltip.go:37-124 | For every state, address, host, date and error message the tip is at most 63 units |
| `TrayTip.HostShownExactly` | internal/clientgui/tray_tooltip.go:86-123 | The host line is there if and only if at least four units are left for it, and then always fits |
| `TrayTip.SinceIsNeverCut` | internal/clientgui/tray_tooltip.go:74-91 | The connection time is shown whole or not at all, unless the address line alone is too long |

## Left out

Weaker than the code in one respect:

- FlowTracker.Tracker.ListShard: sorting, paging and the fields of a snapshot that are computed from a flow are not modelled.
- FlowTable.ShardIndex: the hash is written out, but nothing is proved of it; the results hold for every way to place keys in shards.
- FlowTracker.Tracker.ObservePacket: flows are values in the shard maps, not shared objects; no code outside the locks keeps a reference to one.
- SessionManager.Manager.RegisterBegin: the drain of the old connection, the store look-ups before the lock and the log lines are not modelled; the exported networks come with the account.
- SessionManager.Manager.KickUser: the recorded disconnect event is not modelled.
- SessionManager.Manager.SendToAccount: one step, without interference; PacketRuns.dfy cuts it where the program holds no lock, and there the cipher may be gone.
- SessionManager.Manager.HandleInbound: one step, without interference, likewise; byte counters are unbounded and the flow tracker is not called.
- PacketRuns.StrangerNeverGetsThrough: byte counters and the drop counter are not part of the runs.
- Reconnect.ReconnectClient.constructor: the effective first and longest waits are given; the configuration's defaults and dial timeouts are not modelled.
- Reconnect.ReconnectClient.StopMustWait: a Stop issued from inside the loop's own callbacks can only time out, and is not a step of the runs.
- EngineQueue.UiApp.TryConnect: the form checks, configuration saving and the wait for the first authentication are not modelled; the Connect button is taken to be grey while an operation runs, as setEngineOpBusyUI leaves it.
- EngineQueue.UiApp.StartEngine: HardRestart with a nil configuration, which returns before stopping the old engine, is not a step; the window always has one.
- EngineRuns.EveryEngineInOnePlace: counts the Stop calls of the GUI and of HardRestart; the additional Stop that a failed first authentication makes by itself is not counted.
- IpPool.Pool.Allocate: keys are addresses, not texts; two spellings of one address given to Reserve or AllocateSpecific are one key here.
- LanPolicy.OverlapIsShared: an IPv6 prefix of IPv4-mapped addresses is IPv6 here.
- RouteSync.NormalizeCIDRs: IPv4 routes only.
- RouteSync.Runtime.SyncRoutesDiff: a command for a route fails or works once per call; repeated commands for one route within a call do not occur.
- Lockout.GuessesPerWindow: calls are one after another; two at once for one address may both pass the lock check.
- Lockout.Service.Login: the session token and its possible failure are not modelled.
- TrayTip.FormatTrayTooltip: a text is a sequence of Unicode scalar values; bytes that are no UTF-8 are not represented, and the date is given as printed.

Not modelled:

- TLS sockets, Wintun, WFP, ICS, route and DNS commands, SQLite, files, services, autostart: steps that work or fail.
- X25519, ChaCha20-Poly1305, bcrypt, key parsing and randomness: an ideal AEAD and a password check that answers.
- Parsing addresses and prefixes from text, and IPv6 in the packet path, which the program drops.
- HTTP handlers, templates, widgets, menus, logging and its rate limits beyond AllowEvery itself.
- Panic recovery in GoSafe; application shutdown after the event loop has ended.
- AllowLANRegistrySync, ReloadExitLANs, LoadVPNIPIndex and the setters of the session manager: one assignment each.
- applyPolicy's success test, checkRouteInstallResult and viaFingerprint: one-branch facts around system calls.
- MergeDNSIntoAllowedIPs and AppendCIDRUnique: not on any path of the properties above.
