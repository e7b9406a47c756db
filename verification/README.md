# Verified models of the SSH transport helpers

A Dafny model of the parts of this repository whose correctness spans more than one
function: the channel layer of the vendored OpenSSH, its user authentication, its small
data structures and ciphers, and the environment parser of the JNI bridge. Verify it with
`dafny verify dfyconfig.toml`.

## How it is laid out

- **Channels.** `Channel` holds one endpoint of a plain channel and its handlers as
  functions; `ChannelEndpoint` runs the same handlers in place, in a class whose every
  method is proved to change the object as the function says. `ChannelLink` has the
  invariant that relates two endpoints and the messages between them, with one lemma for
  each handler, and `ChannelRuns` the theorems about all runs: flow control, order and
  completeness of data, the close protocol, and progress. `ChannelLocal` has what one endpoint
  keeps on its own. `ChannelTable` is the table of channels with the id translation of the
  multiplexing proxy.
- **Authentication.** `AuthLists` relates the string surgery on method lists to lists of
  tokens, `AuthDialogue` is the message-driven state machine, `AuthRuns` the theorems about
  all dialogues, `AuthAborts` when its one reachable internal abort is reached, and
  `AuthSession` the context object changed in place. A credential check
  is an answer that arrives with the message.
- **Numbers.** `Common` has what several modules share, `Bits` has powers of two, bits and the
  bitwise operators on natural numbers, `Bitmap` the bit vector against a set of numbers,
  `Addr` masks, comparison and increment against 32- and 128-bit integers.
- **Ciphers.** `StreamMode` (a block function run as a stream cipher) with its two instances
  `AesCtr` and `ChaCha`, then `ChachaPoly` and `AesCbc`. Block functions, ChaCha's rounds
  and Poly1305 are parameters; counters, tails, order and aliasing are concrete.
- **Codecs and queues.** `AuthOptions`, `AtomicIo`, `ReplyQueue` and `SetEnv`.

Classes keep the fields the source updates. Their methods are proved equal to a function of
the old state, and the theorems are about that function. Some records carry a history (what
was read and written, what was registered, which methods succeeded) that no handler reads.

Where the code and its promise part, the model follows the code and proves where the line
runs: `StarvedExactly` (a window of one byte), `LossesStarve` (unwanted extended data),
`StarvedForGood` (no window comes back), `FreeExact` (a dead multiplexing client),
`AbortExactly` and `SingleListAborts` (submethods on other methods), `AcceptsOwnOutput` (bit
2^24), `StrayHostBitsMatchNothing` (networks with host bits), `SurvivesExactly` (values that
do not fit their encoding) and `EmptyFirstEntryStops` (a vector that starts empty).

## Model

| member | source | states |
|---|---|---|
| ChannelRuns.WindowSafety | app/src/main/cpp/openssh/channels.c:2431-2456 | In every run of two endpoints: sender's remote_window + data and extended data in flight + adjusts in flight + bytes the receiver ignored uncharged = receiver's local_window; local_window + local_consumed + output + extended ≤ local_window_max, with equality while no write failed |
| ChannelRuns.NoAlarm | app/src/main/cpp/openssh/channels.c:3500-3545 | In every run the branches "packet too big", "rcvd too much data", "peer ignored channel window", the extended-data overrun, the adjust-overflow fatal, "no such channel" and the confirmation of a channel not opening are never taken; the one diagnostic left is unwanted extended data |
| ChannelRuns.ByteConservation | app/src/main/cpp/openssh/channels.c:2203-2224 | Bytes written to wfd are a prefix of those read from the peer's rfd; until a write fails or the sender is forcibly closed, written ++ output ++ in flight ++ input equals exactly the bytes read; the same for extended data the receiver wants |
| ChannelRuns.EofMeansComplete | app/src/main/cpp/openssh/nchan.c:255-265 | EOF is behind all data: a receiver that saw it and drained its output has written everything the sender put on the wire, which is everything it ever read unless it received a CLOSE before it could send the rest |
| ChannelRuns.FreedIsSilent | app/src/main/cpp/openssh/nchan.c:333-371 | A channel is freed only once nothing more is addressed to it |
| ChannelRuns.HelpIsBounded | app/src/main/cpp/openssh/channels.c:2431-2456 | No infinite sequence of receiver steps: each delivery, write and window check lowers a measure |
| ChannelRuns.HelpSettles | app/src/main/cpp/openssh/channels.c:2431-2456 | From every reachable state some finite run of receiver steps, each on a descriptor that channel_pre_open waits for, leaves nothing to deliver, nothing the loop waits to write and no credit due |
| ChannelRuns.NoStarvation | app/src/main/cpp/openssh/channels.c:2431-2456 | In any settled state of an open channel whose output still goes out, remote_window plus what was ignored uncharged ≥ local_window_max / 2, so a window of more than twice the losses, and of two or more, lets a waiting sender send |
| ChannelRuns.BlockedSenderIsReleased | app/src/main/cpp/openssh/channels.c:2431-2456 | A sender with bytes to send, facing a receiver whose output still goes out and half of whose window exceeds what it has ignored, with no CLOSE, EOW or unwanted extended data on the way, is released: some run of receiver steps ends with channel_output_poll sending |
| ChannelRuns.StarvedExactly | app/src/main/cpp/openssh/channels.c:2437-2440 | With a peer healthy to the end, some run leaves the opener without window and with nothing more to hope for if and only if the window it was given is at most 1 |
| ChannelRuns.OneByteStalls | app/src/main/cpp/openssh/channels.c:2437-2440 | With a window of 1 and any packet size but 0, reading, sending, receiving and writing one byte is such a run |
| ChannelRuns.StarvedForGood | app/src/main/cpp/openssh/channels.c:2437-2440 | After any run that leaves a receiving peer settled and the opener without window, the window stays 0 in every continuation, whatever either end does |
| ChannelRuns.LossesStarve | app/src/main/cpp/openssh/channels.c:3577-3581 | With a peer that keeps receiving, some run leaves the opener without window for good if and only if the window is at most 1 or the opener may send extended data: what the peer does not want, or can no longer write, is never given back |
| ChannelLink.PerformKeeps | app/src/main/cpp/openssh/channels.c:1325-1360 | Every handler the event loop may call keeps the joint invariant of both endpoints and both queues |
| ChannelLink.ReceiveKeeps | app/src/main/cpp/openssh/channels.c:3478-3762 | Every handler of an incoming channel message keeps it, and raises no alarm but unwanted extended data |
| ChannelLink.CollectKeeps | app/src/main/cpp/openssh/channels.c:2648-2667 | Garbage collection, with the CLOSE it may send before or after the user callback, keeps it |
| ChannelLink.ForceCloseKeeps | app/src/main/cpp/openssh/channels.c:1440-1463 | A forced close keeps it |
| ChannelLink.CloseDelivered | app/src/main/cpp/openssh/nchan.c:268-305 | A received CLOSE keeps it, larval channels and every state of the input side included |
| ChannelLocal.PerformLocal | app/src/main/cpp/openssh/channels.c:2179-2456 | What one endpoint keeps on its own (windows add up, each flag agrees with the states) is kept by every handler |
| ChannelLocal.ReceiveLocal | app/src/main/cpp/openssh/channels.c:3478-3762 | And by every message of a peer that keeps to the protocol, with no alarm but unwanted extended data |
| ChannelLocal.HeadIsExpected | app/src/main/cpp/openssh/channels.c:3478-3762 | In a run of two endpoints the next message is always such a message |
| ChannelEndpoint.Endpoint.constructor | app/src/main/cpp/openssh/channels.c:504-561 | A new channel owns its whole advertised window, empty buffers and the open states |
| ChannelEndpoint.Endpoint.HandleRfd | app/src/main/cpp/openssh/channels.c:2179-2261 | In place: the new channel and the messages queued are those of Channel.HandleRfd (short reads, end of file, the 16 MiB limit, the window limit) |
| ChannelEndpoint.Endpoint.HandleWfd | app/src/main/cpp/openssh/channels.c:2264-2352 | In place: partial writes move to local_consumed, an error closes the output |
| ChannelEndpoint.Endpoint.HandleEfdRead | app/src/main/cpp/openssh/channels.c:2384-2411 | In place: reading stderr, closing it at end of file |
| ChannelEndpoint.Endpoint.HandleEfdWrite | app/src/main/cpp/openssh/channels.c:2355-2381 | In place: writing stderr and counting it as consumed |
| ChannelEndpoint.Endpoint.CheckWindow | app/src/main/cpp/openssh/channels.c:2431-2456 | In place: the window update is due under exactly the source's condition and returns all of local_consumed |
| ChannelEndpoint.Endpoint.OutputPollInputOpen | app/src/main/cpp/openssh/channels.c:3025-3092 | In place: at most remote_window and remote_maxpacket bytes leave, in order; EOF only from a drained input |
| ChannelEndpoint.Endpoint.OutputPollExtendedRead | app/src/main/cpp/openssh/channels.c:3099-3128 | In place: the same for extended data |
| ChannelEndpoint.Endpoint.InputData | app/src/main/cpp/openssh/channels.c:3478-3546 | In place: acceptance, the 10% grace, and data for a closed output counted as consumed |
| ChannelEndpoint.Endpoint.InputExtendedData | app/src/main/cpp/openssh/channels.c:3549-3599 | In place: extended data is accepted, ignored or refused as the source does, by kind, EOF, SSH_BUG_EXTEOF, data type, descriptor and window |
| ChannelEndpoint.Endpoint.InputWindowAdjust | app/src/main/cpp/openssh/channels.c:3735-3762 | In place: the window grows by the amount, with the overflow check |
| ChannelEndpoint.Endpoint.InputOpenConfirmation | app/src/main/cpp/openssh/channels.c:3643-3679 | In place: the remote window and packet size are taken over and the channel opens |
| ChannelEndpoint.Endpoint.ChanRcvdIeof | app/src/main/cpp/openssh/nchan.c:255-265 | In place: received EOF |
| ChannelEndpoint.Endpoint.ChanRcvdOclose | app/src/main/cpp/openssh/nchan.c:268-305 | In place: received CLOSE |
| ChannelEndpoint.Endpoint.ChanIbufEmpty | app/src/main/cpp/openssh/nchan.c:127-146 | In place: drained input sends EOF once |
| ChannelEndpoint.Endpoint.ChanWriteFailed | app/src/main/cpp/openssh/nchan.c:308-324 | In place: output discarded, EOW for a session whose peer knows it |
| ChannelEndpoint.Endpoint.ChanRcvdEow | app/src/main/cpp/openssh/nchan.c:170-179 | In place: received EOW |
| ChannelEndpoint.Endpoint.GarbageCollect | app/src/main/cpp/openssh/channels.c:2648-2667 | In place: the user callback first, with the CLOSE detach_close allows; then CLOSE at most once, free when both were exchanged |
| ChannelEndpoint.Endpoint.SetFds | app/src/main/cpp/openssh/channels.c:1290-1311 | In place: a larval channel opens and its window is announced; any other is refused (fatal) |
| ChannelEndpoint.Endpoint.ForceClose | app/src/main/cpp/openssh/channels.c:1440-1463 | In place: forced close, abandoning the channel or not |
| ChannelEndpoint.Endpoint.Handle | app/src/main/cpp/openssh/channels.c:2459-2465 | In place: any call the event loop may make keeps the endpoint valid |
| ChannelEndpoint.Endpoint.Deliver | app/src/main/cpp/openssh/channels.c:3478-3762 | In place: any message of a peer that keeps to the protocol keeps it valid and raises at most the alarm for unwanted extended data |
| ChannelTable.RepliesReachTheirClient | app/src/main/cpp/openssh/channels.c:3366-3441 | For every interleaving of table operations and proxied messages, clients dying under their proxies included: what the server sends to a live proxy's id reaches the client whose OPEN or OPEN_CONFIRMATION made it, and nobody else, with that client's own id, if and only if that client is still in the table, whatever numbers, slots or addresses are reused |
| ChannelTable.RunKeeps | app/src/main/cpp/openssh/channels.c:504-561 | Over every run live ids equal their slot, no live channel moves, and every proxy whose maker lives points at it |
| ChannelTable.RunRouted | app/src/main/cpp/openssh/channels.c:761-824 | Over every run that frees no dead client under its proxies, every proxy has its maker and points at it |
| ChannelTable.CarefulRunsRoute | app/src/main/cpp/openssh/channels.c:761-824 | So in those runs the condition of RepliesReachTheirClient always holds |
| ChannelTable.NewShape | app/src/main/cpp/openssh/channels.c:504-561 | channel_new takes the first free slot, growing the table when it is full, and disturbs no live channel |
| ChannelTable.NewProxyKeeps | app/src/main/cpp/openssh/channels.c:3242-3294 | A proxy made for a client points at that client and keeps the table valid |
| ChannelTable.FreeExact | app/src/main/cpp/openssh/channels.c:761-824 | channel_free leaves every proxy with its maker if and only if the channel is still typed as a mux client or no proxy points at it |
| ChannelTable.DeadClientLeavesDanglingProxy | app/src/main/cpp/openssh/channels.c:2515-2545 | A client retyped by chan_mark_dead before it is freed leaves its proxy without its maker: the guard of FreeExact is needed |
| ChannelTable.DanglingIsReached | app/src/main/cpp/openssh/channels.c:2515-2545 | Two operations on the empty table, then the death of the client, reach that state |
| ChannelTable.UpstreamRoutes | app/src/main/cpp/openssh/channels.c:3366-3441 | One upstream packet reaches the proxy's maker and no other, with the id rewritten, if and only if the maker is in the table |
| ChannelTable.StepKeeps | app/src/main/cpp/openssh/channels.c:3213-3441 | Each operation keeps the table valid, the freeing of a dead client too |
| ChannelTable.Table.ChannelById | app/src/main/cpp/openssh/channels.c:245-259 | The channel in the slot, or none for an id out of range |
| ChannelTable.Table.ChannelNew | app/src/main/cpp/openssh/channels.c:504-561 | In place: the table becomes that of New |
| ChannelTable.Table.ChannelFree | app/src/main/cpp/openssh/channels.c:761-824 | In place: the table becomes that of Free, proxies of a mux client detached |
| ChannelTable.Table.ChannelByRemoteId | app/src/main/cpp/openssh/channels.c:262-273 | The first channel with that peer number |
| ChannelTable.Table.ProxyDownstream | app/src/main/cpp/openssh/channels.c:3213-3357 | In place: an id of the client is replaced by the proxy's before the packet goes out |
| ChannelTable.Table.ProxyUpstream | app/src/main/cpp/openssh/channels.c:3366-3441 | In place: the id is replaced by the client's before the packet is queued for it |
| AuthRuns.SuccessMeansAListWasCompleted | app/src/main/cpp/openssh/auth2.c:661-683 | With method lists in force, success implies that a configured valid list was matched completely and in order by a subsequence of the run's successful methods, and its publickey entries by pairwise different keys |
| AuthRuns.UnfinishedMeansNoListIsSatisfied | app/src/main/cpp/openssh/auth2.c:661-683 | The converse: while the dialogue goes on no installed list is satisfied by any choice of the successes so far |
| AuthRuns.DialogueSafety | app/src/main/cpp/openssh/auth2.c:269-464 | In every reachable state attempt is the number of requests received, up to 1024; a live one has counted them all and has failures < max_authtries; success means a valid user; four internal-error fatals are unreachable, and "not in AuthenticationMethods" too if submethods stand only on keyboard-interactive |
| AuthRuns.FirstRequestDecides | app/src/main/cpp/openssh/auth2.c:290-330 | User, service and validity are those of the first request in every later state |
| AuthRuns.RunFixes | app/src/main/cpp/openssh/auth2.c:331-351 | From then on neither they nor the installed lists change |
| AuthRuns.AbortExactly | app/src/main/cpp/openssh/auth2.c:679-681 | A success aborts if and only if no list in progress begins with a token for it, which can be seen before the method is tried |
| AuthRuns.StraySubmethodAborts | app/src/main/cpp/openssh/auth2.c:472-489 | A list with a submethod on another method lets the method be tried and then aborts on its success: the condition in DialogueSafety is needed |
| AuthRuns.StrayRunAborts | app/src/main/cpp/openssh/auth2.c:679-681 | With such a configuration the first request of a dialogue, a correct password, aborts it |
| AuthAborts.SingleListAborts | app/src/main/cpp/openssh/auth2.c:661-683 | With one configured list, some dialogue ends in the "not in AuthenticationMethods" abort if and only if the list is valid and, within the first 1024 tokens, one with a submethod of a method other than keyboard-interactive comes after tokens that can all be satisfied, and its own method can succeed |
| AuthRuns.UpdateTracks | app/src/main/cpp/openssh/auth2.c:661-683 | Updating the strings keeps each equal to what is left of its configured token list, and reports completion only when one is used up |
| AuthRuns.EmbeddingConsumes | app/src/main/cpp/openssh/auth2.c:661-683 | Taking successes greedily, as the lists do, loses nothing against any other choice |
| AuthRuns.AllowedIsFound | app/src/main/cpp/openssh/auth2.c:472-489 | A device that may be started is one whose success the list update will recognise, and so is a whole method that may be tried if no list qualifies a method other than keyboard-interactive |
| AuthRuns.NextIsAllowed | app/src/main/cpp/openssh/auth2-chall.c:153-190 | kbdint_next_device only selects a device the method lists allow |
| AuthRuns.StepKeeps | app/src/main/cpp/openssh/auth2.c:269-464 | Each message keeps the invariant of the dialogue |
| AuthLists.RemoveIsTail | app/src/main/cpp/openssh/auth2.c:635-652 | The string surgery of remove_method is dropping the head token when it matches the method, and nothing otherwise |
| AuthLists.StartsWithHead | app/src/main/cpp/openssh/auth2.c:603-627 | list_starts_with compares with the head token only: complete, up to a submethod, or not at all |
| AuthLists.TailDropsHead | app/src/main/cpp/openssh/auth2.c:635-652 | Cutting at the first comma drops exactly the first token |
| AuthLists.MethodsValid | app/src/main/cpp/openssh/auth2-methods.c:93-134 | The strsep loop accepts a list if and only if it is not empty and the base of every token is an offered (enabled) method |
| AuthSession.Authctxt.MethodAllowed | app/src/main/cpp/openssh/auth2.c:472-489 | In place: allowed if no lists are in force or one starts with the method |
| AuthSession.Authctxt.SetupMethodsLists | app/src/main/cpp/openssh/auth2.c:564-600 | The lists whose methods are all valid and enabled, in order; none left is an error |
| AuthSession.Authctxt.UpdateMethodsLists | app/src/main/cpp/openssh/auth2.c:661-683 | In place: the lists, and the two results, are those of the specification the run theorems use |
| AuthSession.Authctxt.KeyAlreadyUsed | app/src/main/cpp/openssh/auth2.c:747-764 | Membership in the recorded keys |
| AuthSession.Authctxt.RecordKey | app/src/main/cpp/openssh/auth2.c:718-743 | In place: only an authenticated key is appended |
| AuthSession.Authctxt.KbdintNextDevice | app/src/main/cpp/openssh/auth2-chall.c:153-190 | The device loop computes NextDevice: names are consumed and done bits set as in the source |
| AuthSession.Authctxt.ChallengeStart | app/src/main/cpp/openssh/auth2-chall.c:226-254 | In place: start of a dialogue or its end |
| AuthSession.Authctxt.UserauthPubkey | app/src/main/cpp/openssh/auth2-pubkey.c:88-315 | In place: reuse check, recording and option activation in the source's order |
| AuthSession.Authctxt.UserauthHostbased | app/src/main/cpp/openssh/auth2-hostbased.c:60-165 | In place: a decoded host key of a valid user is checked, recorded, and reported when accepted |
| AuthSession.Authctxt.UserauthFinish | app/src/main/cpp/openssh/auth2.c:361-464 | In place: the decision between success, partial success, failure and fatal |
| AuthSession.Authctxt.InputUserauthRequest | app/src/main/cpp/openssh/auth2.c:269-358 | In place: the whole request handler |
| AuthSession.Authctxt.InputUserauthInfoResponse | app/src/main/cpp/openssh/auth2-chall.c:294-364 | In place: the whole response handler |
| Bitmap.Bitmap.constructor | app/src/main/cpp/openssh/bitmap.c:38-51 | The empty set |
| Bitmap.Bitmap.Zero | app/src/main/cpp/openssh/bitmap.c:65-69 | In place: the empty set, storage kept |
| Bitmap.Bitmap.TestBit | app/src/main/cpp/openssh/bitmap.c:72-79 | True if and only if the bit is in the set |
| Bitmap.Bitmap.Reserve | app/src/main/cpp/openssh/bitmap.c:82-98 | In place: room for the bit, the set unchanged; on failure nothing changes |
| Bitmap.Bitmap.SetBit | app/src/main/cpp/openssh/bitmap.c:101-113 | In place: adds exactly that element; refused above 2^24 or without memory, and then nothing changes |
| Bitmap.Bitmap.ClearBit | app/src/main/cpp/openssh/bitmap.c:126-138 | In place: removes exactly that element, and top is restored |
| Bitmap.Bitmap.NBits | app/src/main/cpp/openssh/bitmap.c:141-159 | Largest element plus one, or zero |
| Bitmap.Bitmap.NBytes | app/src/main/cpp/openssh/bitmap.c:162-165 | That, in bytes rounded up |
| Bitmap.Bitmap.ToString | app/src/main/cpp/openssh/bitmap.c:168-186 | The canonical big-endian encoding of the set: no leading zero byte, exactly nbytes long; refused when the buffer is short |
| Bitmap.Bitmap.FromString | app/src/main/cpp/openssh/bitmap.c:189-214 | In place: the set whose encoding the bytes are; refused above 2^21 bytes or without memory, and then nothing changes |
| Bitmap.AcceptsOwnOutput | app/src/main/cpp/openssh/bitmap.c:189-197 | from_string takes what to_string wrote if and only if bit 2^24 is not set |
| Bitmap.Transfer | app/src/main/cpp/openssh/bitmap.c:168-214 | In place: a bitmap written out and read into another leaves the other with exactly its elements, if and only if bit 2^24 is not among them; else the other is unchanged |
| Bitmap.RewritingStripsZeros | app/src/main/cpp/openssh/bitmap.c:168-214 | Reading a string and writing it back strips exactly its leading zero bytes |
| Bitmap.HighestIsMax | app/src/main/cpp/openssh/bitmap.c:141-159 | The bit found by scanning is the maximum of the set |
| Bits.CanonicalUnique | app/src/main/cpp/openssh/bitmap.c:168-186 | A number has one encoding without leading zero byte, so reading and writing are inverse |
| Addr.NetmatchIsRange | app/src/main/cpp/openssh/addr.c:498-510 | For a net without host bits and a host of its family and scope, addr_netmatch is 0 if and only if net ≤ host ≤ addr_host_to_all1s(net) under addr_cmp |
| Addr.IncrementStaysInside | app/src/main/cpp/openssh/addr.c:306-325 | Counting up from the net, address i < 2^(W-m) is net + i and matches |
| Addr.IncrementReaches | app/src/main/cpp/openssh/addr.c:306-325 | Every matching host is one of them |
| Addr.IncrementVal | app/src/main/cpp/openssh/addr.c:306-325 | addr_increment is +1 modulo 2^32 or 2^128, carry included |
| Addr.StrayHostBitsMatchNothing | app/src/main/cpp/openssh/addr.c:498-510 | A net given with host bits matches no host |
| Addr.CmpVal | app/src/main/cpp/openssh/addr.c:254-284 | addr_cmp orders the addresses of a family as numbers, then by scope |
| Addr.NetmaskBit | app/src/main/cpp/openssh/addr.c:168-194 | The mask of length m has exactly its m highest bits set |
| Addr.HostmaskBit | app/src/main/cpp/openssh/addr.c:197-202 | The host mask has exactly the others |
| Addr.MaskedVal | app/src/main/cpp/openssh/addr.c:209-229 | addr_and with the mask clears the host bits of the number |
| Addr.AllOnesVal | app/src/main/cpp/openssh/addr.c:361-370 | addr_host_to_all1s sets them |
| Addr.HostZeroVal | app/src/main/cpp/openssh/addr.c:334-344 | addr_host_is_all0s holds if and only if no host bit is set |
| Addr.XAddr.SetNetmask | app/src/main/cpp/openssh/addr.c:168-194 | In place: the word loop computes the mask; invalid lengths are refused |
| Addr.XAddr.InvertInPlace | app/src/main/cpp/openssh/addr.c:142-160 | In place: every bit flipped |
| Addr.XAddr.AndOf | app/src/main/cpp/openssh/addr.c:209-229 | In place: word by word and, this address being possibly the first operand; if it is the second, which is overwritten first, the result is the first |
| Addr.XAddr.OrOf | app/src/main/cpp/openssh/addr.c:232-251 | In place: word by word or, with the same two cases |
| Addr.XAddr.Compare | app/src/main/cpp/openssh/addr.c:254-284 | The byte loop computes Cmp |
| Addr.XAddr.IncrementInPlace | app/src/main/cpp/openssh/addr.c:306-325 | In place: the carry loop computes Increment |
| Addr.XAddr.SetHostToAllOnes | app/src/main/cpp/openssh/addr.c:361-370 | In place: the last address of the network |
| Addr.XAddr.NetMatch | app/src/main/cpp/openssh/addr.c:498-510 | The match of the specification, operands unchanged |
| StreamMode.CryptAt | app/src/main/cpp/openssh/cipher-aesctr.c:69-82 | Of both modes: output byte n of block q is message byte xor byte n of the block of the state q steps on |
| StreamMode.CryptUndoes | app/src/main/cpp/openssh/chacha.c:89-218 | Of both modes: applying the cipher twice from one state gives the message back |
| StreamMode.CryptSplits | app/src/main/cpp/openssh/chacha.c:89-218 | Of both modes: a message cut at a block boundary may be processed in two calls |
| StreamMode.BlocksSplit | app/src/main/cpp/openssh/chacha.c:89-218 | Of both modes: the state ends the same in one call or two |
| AesCtr.IncBytesVal | app/src/main/cpp/openssh/cipher-aesctr.c:33-54 | The increment is +1 modulo 256^len on the big-endian counter |
| AesCtr.Inc | app/src/main/cpp/openssh/cipher-aesctr.c:33-44 | The early-exit loop computes it in place |
| AesCtr.IncConstantTime | app/src/main/cpp/openssh/cipher-aesctr.c:45-53 | The constant-time loop computes the same function in place |
| AesCtr.NonZeroIsNonZero | app/src/main/cpp/openssh/cipher-aesctr.c:48-52 | The folding of a byte is 1 if and only if the byte is not 0 |
| AesCtr.AdvanceVal | app/src/main/cpp/openssh/cipher-aesctr.c:69-82 | After k blocks the counter is counter + k modulo 2^128 (section 4 of RFC 4344) |
| AesCtr.CountersDiffer | app/src/main/cpp/openssh/cipher-aesctr.c:69-82 | No counter block repeats within 2^128 blocks |
| AesCtr.KeystreamAt | app/src/main/cpp/openssh/cipher-aesctr.c:69-82 | Output byte i is message byte i xor byte i mod 16 of the encrypted counter + i / 16 |
| AesCtr.Context.EncryptBytes | app/src/main/cpp/openssh/cipher-aesctr.c:69-82 | The byte loop with its rolling block computes that function in place, also with destination = source, and advances the counter by ceil(n / 16) |
| ChaCha.XorBytes | app/src/main/cpp/openssh/chacha.c:29-41 | Combining little-endian words is combining their bytes |
| ChaCha.AdvanceVal | app/src/main/cpp/openssh/chacha.c:171-176 | The carry from word 12 to word 13 makes one 64-bit counter, low word first |
| ChaCha.OnlyTheCounterMoves | app/src/main/cpp/openssh/chacha.c:89-218 | Key and nonce words never change |
| ChaCha.StatesDiffer | app/src/main/cpp/openssh/chacha.c:171-176 | No state (key, nonce, counter) recurs within 2^64 blocks of a nonce |
| ChaCha.KeystreamAt | app/src/main/cpp/openssh/chacha.c:89-218 | Output byte i is message byte i xor byte i mod 64 of the block of counter + i / 64 |
| ChaCha.EncryptBlock | app/src/main/cpp/openssh/chacha.c:117-205 | All sixteen words are read before the first is written: one block in place |
| ChaCha.EncryptLoop | app/src/main/cpp/openssh/chacha.c:117-217 | The block loop with its temporary tail computes the cipher on any length, also with destination = source, and touches nothing else |
| ChaCha.Context.IvSetup | app/src/main/cpp/openssh/chacha.c:80-86 | In place: nonce and counter words set, key words kept |
| ChaCha.Context.EncryptBytes | app/src/main/cpp/openssh/chacha.c:89-218 | In place: output, untouched surroundings, and the counter written back |
| ChachaPoly.OpenUndoesSeal | app/src/main/cpp/openssh/cipher-chachapoly.c:69-120 | Decryption after encryption gives the header and payload back, for every key, sequence number and lengths |
| ChachaPoly.OnlySealedPacketsOpen | app/src/main/cpp/openssh/cipher-chachapoly.c:86-96 | A packet opens to m if and only if it is what sealing m gives |
| ChachaPoly.LengthIsReadable | app/src/main/cpp/openssh/cipher-chachapoly.c:124-136 | get_length on the ciphertext is the big-endian plaintext length |
| ChachaPoly.MainKeyBlocksDiffer | app/src/main/cpp/openssh/cipher-chachapoly.c:77-108 | The state of block 0 of the main key, which makes the tag key, is that of no byte of any packet, and packets with different sequence numbers share no state |
| ChachaPoly.NonceFixesSequenceNumber | app/src/main/cpp/openssh/cipher-chachapoly.c:81-82 | The nonce words determine the sequence number |
| ChachaPoly.Cipher.CryptPacket | app/src/main/cpp/openssh/cipher-chachapoly.c:69-120 | In place: encryption writes ciphertext and tag and returns 0; decryption returns 0 and the plaintext, or MAC_INVALID with the destination untouched |
| ChachaPoly.Cipher.GetLength | app/src/main/cpp/openssh/cipher-chachapoly.c:124-136 | The length, or MESSAGE_INCOMPLETE below four bytes |
| ChachaPoly.New | app/src/main/cpp/openssh/cipher-chachapoly.c:40-51 | A context with both key schedules if and only if the key has 64 bytes |
| AesCbc.DecUndoesEnc | app/src/main/cpp/openssh/cipher-aes.c:71-114 | Decryption inverts encryption for any number of blocks, given inverse block functions |
| AesCbc.SessionRoundTrip | app/src/main/cpp/openssh/cipher-aes.c:71-114 | Over any session of calls every message comes back |
| AesCbc.SessionIsOneCall | app/src/main/cpp/openssh/cipher-aes.c:71-114 | Any split into calls gives the ciphertext and the final vector of one call |
| AesCbc.EncSplits | app/src/main/cpp/openssh/cipher-aes.c:86-99 | Two encrypting calls with the carried vector are one call on both messages |
| AesCbc.DecSplits | app/src/main/cpp/openssh/cipher-aes.c:100-112 | The same for decrypting calls |
| AesCbc.EncryptLoop | app/src/main/cpp/openssh/cipher-aes.c:86-99 | The forward loop computes the mode, also in place, and ends with the last ciphertext block |
| AesCbc.DecryptLoop | app/src/main/cpp/openssh/cipher-aes.c:100-111 | The backward loop computes the inverse, also in place |
| AesCbc.Context.Encrypt | app/src/main/cpp/openssh/cipher-aes.c:71-99 | In place: fatal and unchanged for a partial block; else the ciphertext, and r_iv is its last block |
| AesCbc.Context.Decrypt | app/src/main/cpp/openssh/cipher-aes.c:100-114 | In place: the same on the other side, with the same r_iv left behind |
| AuthOptions.DecodeEncode | app/src/main/cpp/openssh/auth-options.c:796-910 | Deserialising what was serialised, followed by any bytes, returns the normal form of the options and leaves those bytes |
| AuthOptions.SurvivesExactly | app/src/main/cpp/openssh/auth-options.c:796-910 | The options come back unchanged if and only if every flag fits a byte and force_tun_device ≥ -1 |
| AuthOptions.EncodingIsPrefixFree | app/src/main/cpp/openssh/auth-options.c:796-845 | Different options have different encodings, none a prefix of another |
| AuthOptions.NullableBack | app/src/main/cpp/openssh/auth-options.c:772-793 | An absent string comes back absent, an empty one empty |
| AuthOptions.ArrayBack | app/src/main/cpp/openssh/auth-options.c:704-769 | Arrays of any length come back |
| AuthOptions.TunBack | app/src/main/cpp/openssh/auth-options.c:813-817 | The tunnel number comes back, -1 by its flag |
| AuthOptions.SerialiseArray | app/src/main/cpp/openssh/auth-options.c:704-728 | In place: the array's encoding is appended, or an error returned, exactly when it does not fit |
| AuthOptions.DeserialiseArray | app/src/main/cpp/openssh/auth-options.c:731-769 | In place: the loop is the specified parser: value and rest, or its error |
| AuthOptions.SerialiseNullable | app/src/main/cpp/openssh/auth-options.c:772-780 | In place: flag and string appended |
| AuthOptions.DeserialiseNullable | app/src/main/cpp/openssh/auth-options.c:783-793 | In place: flag and string taken; the string is read even when dropped |
| AuthOptions.Serialise | app/src/main/cpp/openssh/auth-options.c:796-845 | In place: the encoding of the options (for an untrusted key, of their stand-in) is appended, with success exactly when it fits |
| AuthOptions.Deserialise | app/src/main/cpp/openssh/auth-options.c:848-910 | In place: the specified parser |
| AtomicIo.RunMovesAPrefix | app/src/main/cpp/openssh/atomicio.c:99-166 | For any script of short transfers, EINTR, EAGAIN, errors and callbacks: what moved is a prefix of the flattened vector, the trimmed entries cover the rest, the result is its length or 0 on error, a normal end means all of it |
| AtomicIo.HonestRunsDoNotFault | app/src/main/cpp/openssh/atomicio.c:149-152 | The EFAULT branch is not reached unless a transfer reports more than was left |
| AtomicIo.EnoughTransfersFinish | app/src/main/cpp/openssh/atomicio.c:120-165 | As many transfers as there are bytes always end the call |
| AtomicIo.EmptyFirstEntryStops | app/src/main/cpp/openssh/atomicio.c:120 | A vector is reported done with nothing moved, whatever the script, if and only if its first entry is empty |
| AtomicIo.TrimDrops | app/src/main/cpp/openssh/atomicio.c:143-158 | Skipping and advancing entries drops exactly the first n bytes and leaves a non-empty head |
| AtomicIo.Consume | app/src/main/cpp/openssh/atomicio.c:141-158 | The trimming loop, refusing exactly the reports that are too large |
| AtomicIo.AtomicIov | app/src/main/cpp/openssh/atomicio.c:99-166 | The retry loop is that run; a bad entry count moves nothing |
| AtomicIo.OneBuffer | app/src/main/cpp/openssh/atomicio.c:45-87 | For one buffer of any length counting gives the result that trimming a vector gives, except exactly when a transfer reports more than was left: an error there, a count above the length here |
| AtomicIo.AtomicIo6 | app/src/main/cpp/openssh/atomicio.c:45-87 | The one-buffer loop is that run |
| ReplyQueue.RepliesInOrder | app/src/main/cpp/openssh/clientloop.c:466-481 | For every interleaving, callbacks that register again included, the k-th reply goes to the k-th registration, and what waits is the rest in order |
| ReplyQueue.ReplyServesOne | app/src/main/cpp/openssh/clientloop.c:466-481 | A reply serves one waiter if and only if one waits |
| ReplyQueue.CoalescedIsUnique | app/src/main/cpp/openssh/clientloop.c:894-912 | The counted queue is the only one for its registrations |
| ReplyQueue.FatalNeedsManyRegistrations | app/src/main/cpp/openssh/clientloop.c:901-903 | The INT_MAX fatal needs that many registrations |
| ReplyQueue.PushAppends | app/src/main/cpp/openssh/clientloop.c:894-912 | Registering appends one waiter, by counting or by a new entry |
| ReplyQueue.AfterReplyServesHead | app/src/main/cpp/openssh/clientloop.c:466-481 | A reply takes off one head waiter, after what its callback registered went to the tail |
| ReplyQueue.Confirms.Register | app/src/main/cpp/openssh/clientloop.c:894-912 | In place: the queue becomes that of Push, or the call is fatal |
| ReplyQueue.Confirms.Reply | app/src/main/cpp/openssh/clientloop.c:466-481 | In place: callback first, then the count goes down |
| SetEnv.ParseUndoesPrint | app/src/main/cpp/jni-dropbear.c:152-177 | Printing any list of pairs (name not empty, without =, CR or LF; value without CR or LF) one a line, with any line breaks between, and parsing it yields that list |
| SetEnv.ParsedAreGood | app/src/main/cpp/jni-dropbear.c:152-177 | Whatever the list holds, only such pairs are exported |
| SetEnv.BlankLinesVanish | app/src/main/cpp/jni-dropbear.c:171-173 | Leading line breaks change nothing |
| SetEnv.LastWins | app/src/main/cpp/jni-dropbear.c:175-185 | Each variable ends with the value of the last pair naming it, or keeps its own |
| SetEnv.ExportMeaning | app/src/main/cpp/jni-dropbear.c:146-190 | The environment after a printed list: last pair wins, and IKOFI_CONF_DIR is always the configuration directory |
| SetEnv.Process.SetEnv | app/src/main/cpp/jni-dropbear.c:146-190 | In place: the loop ends on every string with that environment; without a list nothing is set |
| SetEnv.ReadLine | app/src/main/cpp/jni-dropbear.c:152-173 | The three inner loops read one line and move the cursor forward |

## Left out

- Datagram channels, whose two ends charge the window differently, and filters on input or output.
- ChannelEndpoint.Endpoint.GarbageCollect: zombies, which only other kinds of channel become, and what a user callback does besides unregistering itself are not modelled.
- ChannelRuns.StarvedExactly: like LossesStarve stated for a packet size from 1 to 2^32 - 1, which is every 32-bit size but 0.
- ChannelRuns.LossesStarve: stated for a peer that starts open; a larval one has no window until it is opened.
- ChannelEndpoint.Endpoint.ForceClose: a channel that is forced closed and not abandoned, as X11 and dynamic forwarding do while being opened, is not an event of the runs.
- Descriptor events of one round: the write that closes the last direction may still be followed by an event of the extended descriptor, also when the two fall into different rounds; the invariants hold there too, the progress theorems do not use it.
- Channels that get local text in `output` or `extended` (SOCKS replies, escape output, multiplexing status): it is counted as consumed without having used window.
- `channel_set_fds` other than once on a larval channel opened with window 0; the tty and force-drain special cases of the descriptor handlers; rekeying.
- Global forwarding requests, permissions, listeners, connecting, X11, agent sockets and DNS.
- Nested use of the channel table from callbacks; the mux client's own packet parser; local channels through the proxy other than by their peer's number.
- ChannelTable.Table.ProxyDownstream: global forwarding requests and malformed packets are not modelled.
- AuthSession.Authctxt.UserauthFinish: server_caused_failure is set by GSSAPI only (app/src/main/cpp/openssh/auth2-gss.c:110-124); neither it nor PAM is compiled in (app/src/main/cpp/openssh/config.h:2010).
- AuthRuns.DialogueSafety: for several lists the condition on the configuration under which the "not in AuthenticationMethods" fatal is unreachable is one-way; SingleListAborts is exact for one list, and AbortExactly on the state.
- GSSAPI, PAM, Kerberos, audit, banners, delays and logging: credential checks are oracles, and packets of the wrong shape are one error.
- The transport of AuthSession.Authctxt: replies sent to the client other than success, failure and partial success.
- `addr_pton`, `addr_ntop`, address lists and conversions from socket addresses. Address words are in host order; conversions of byte order are not modelled. Comparison bytes are taken most significant first.
- The AES block functions, the ChaCha rounds and final addition, Poly1305 and the timing of comparisons. ChaCha and AES state words are numbers. Destination and source are one buffer at one offset or different buffers.
- The sixteen unrolled word operations of a ChaCha block are loops over the words.
- `ssh_rijndael_cbc` without a context, and key set-up of AES.
- Allocation failure, except where it is an argument (`Bitmap`); memory zeroing and freeing.
- Merging, parsing and copying of key options; the buffer's reserve policy. The nine flag bytes are put and taken in a loop.
- `errno` and the poll call in atomic I/O; a script of answers stands for the system calls.
- What a reply callback does besides registering; the keep-alive timer.
- The rest of the JNI bridge and the user interface; failures of `setenv`.
