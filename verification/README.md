# Verification of bitcoin-node-tests

A Dafny model of the parts of bitcoin-node-tests that keep state of their own or speak a protocol by hand,
with proofs of what those parts are for. `dafny verify dfyconfig.toml` checks the whole project.

- **The wallet** (`Transactions`, `Blocks`, `Coins`, `CoinSelection`, `WalletState`, `Transfers`, `MiniWallet`,
  `WalletRuns`, `WalletValue`). `MiniWallet` is a class over the fields the Python class updates; each method is
  tied to a function of the old state, and the runs are proved about those functions, against a ghost ledger:
  the transactions a node has seen, its mempool, and the height each mined transaction has.
- **The mempool filler** (`MempoolFill`): its fee schedule against lowest-feerate-first eviction.
- **The peer** (`Packets`, `Framing`, `PeerReceive`, `Handshake`, `PingBarrier`). `Peer` is a class over a socket
  that hands out any octets in any chunks, with timeouts, closes and resets in between; what it has returned is a
  function of the octets received. The two-party handshake and the ping barrier are step models over any delivery.
- **The SOCKS5 proxy** (`Socks5Negotiation`, `Socks5Server`, `Socks5Close`, `Socks5Queue`): the negotiation against
  an encoder, the forwarding loop, and the threads, what they queue and `close` in any interleaving.
- **The node adapter** (`NodeLifecycle`, `PortCursor`, `ArgvGuard`, `Btcd`): the process over its life, the ports
  drawn, and the argument guards against an independent reading of an argv by bitcoind and by btcd.
- **The block test's bookkeeping** (`ChainBook`, `Merkle`): heights through rebuilds and shared hashes, and the
  blocks that repeat their last transactions.

`Wrappers`, `Octets` and `Sockets` hold what several of these share.

## What is assumed

- Hashes are injective. A transaction id, a block hash and a Merkle node stand for the value they name; a
  witness enters a transaction only by its length.
- A cipher is known by what it answers for a packet index (`Packets.Paired`), and a v1 parser by never changing
  its mind when more octets follow (`Framing.Stable`).
- What the environment decides is a parameter or an event: a node's answers, the clock, the chunks and timeouts of
  a socket, how a process ends, which steps threads take.
- The wallet's runs (`WalletRuns.Enabled`) have blocks the node accepts, so a transaction comes after its parents;
  a transaction is sent once, and is new to the node or in its mempool; the mempool keeps a sent transaction until
  it is mined; a coin is confirmed by the chain that is extended.
- The handshake (`Handshake.Matched`) has no earlier occurrence of a terminator than the sent one, and no initiator
  key that opens with v1's `version` header. The ping barrier has a fresh nonce.

## What does not hold as promised

Each is kept as the code has it, with the exact condition under which the promise holds.

- Padding misses its target on the compact-size boundaries, and only there: `Transactions.PaddedVsize`.
- A cached coin can already be spent where a parent reaches the node some other way and the wallet sends it after
  its own child: `WalletRuns.ParentSentAfterChild`, and `WalletRuns.SendKeepsIff` for the condition.
- The same where `generate` confirms such a parent and then raises, the mempool's answer unusable, since the coins
  the mempool spends are then never left out: `WalletRuns.UnreadParentOfSent`, and `WalletRuns.UnreadKeepsIff` for
  the condition.
- `fill_mempool`'s ladder of feerates fails for every relay fee below 5 satoshis per 1000 virtual bytes:
  `MempoolFill.LadderIff`.
- A start or stop can leave its process alive where the wait after the kill expires too or is interrupted, and a
  stop where its first wait is interrupted, though the docstrings of `start` and `stop` promise none is left:
  `NodeLifecycle.OnlyRunningIff`. The expired wait raises `subprocess.TimeoutExpired`, which is no `TimeoutError`.
- A rebuilt block's height can become unknown to another name that shared its old hash: `ChainBook.KnownIff`.
- `close` can leave a connection open where the join of the serving thread expires, and where a forwarder's does:
  `Socks5Close.ExpiredJoinLeaves` and `Socks5Close.ExpiredForwarderLeaves`. As it comes to its joins it is sure to
  leave none exactly where that thread has exited and no forwarder is at work: `Socks5Close.LeavesNothingIff`.
- `close` can miss a client still negotiating, and so wait for its timeout, where it looks between the serving thread's
  check for `close` and its note of the client: `Socks5Queue.UnshutNegotiates`, and `Socks5Queue.NegotiatingShutIff`
  for the condition.
- Repeating the last 2^k of exactly 2^k transactions changes the Merkle root: `Merkle.RepeatedBlock`.

## Model

| member | source | states |
|---|---|---|
| Transactions.NotOwnParent | src/bitcoin_node_tests/mini_wallet.py:841-855 | a transaction never spends its own outputs, so scanning it drops no coin it has just added |
| Transactions.Draft.PadToVsize | src/bitcoin_node_tests/mini_wallet.py:506-535 | one zero-valued output is appended; the target is met exactly off the boundary set, missed by at most 4 below and 2 above on it, and refused exactly where even the placeholder is too large |
| Transactions.PaddedVsize | src/bitcoin_node_tests/mini_wallet.py:522-535 | for every transaction and deficit, the padded size is the target if and only if the deficit is not 252, 253, 65536 to 65538, or 2^32 to 2^32+6; it overshoots only at 252 |
| Transactions.SelfTransferVsize | src/bitcoin_node_tests/mini_wallet.py:883-917 | a self-transfer is 104 virtual bytes, and 114 with the padding placeholder |
| Blocks.CoversIsMedian | src/bitcoin_node_tests/mini_wallet.py:286-307 | the invariant on the last eleven times says exactly that their median is no later than the last mined time |
| Blocks.MedianIs | src/bitcoin_node_tests/mini_wallet.py:286-307 | of the last eleven times, or of all where there are fewer, more than half are no later than the median, and no more than half are before it |
| Blocks.CoversNext | src/bitcoin_node_tests/mini_wallet.py:666-700 | mining strictly later keeps that invariant for every chain length and every earlier times |
| Blocks.MinedLater | src/bitcoin_node_tests/mini_wallet.py:357-358 | such a block is strictly later than its own chain's median time past, and the invariant holds again after it |
| Blocks.MineOne | src/bitcoin_node_tests/mini_wallet.py:310-370 | a block on the given tip with the pays and transactions asked for, later than the minimum time, no earlier than the clock and at no other time than one of the two allow, if and only if one is solved; where the minimum covers the median time past, the block's time is accepted and covers the next one |
| Blocks.ReadTip | src/bitcoin_node_tests/mini_wallet.py:281-307 | the tip, its height as its number of parent links, and its median time past, which starts the invariant |
| Blocks.BuildFork | src/bitcoin_node_tests/mini_wallet.py:373-404 | `length` empty blocks, each on the one before, at its own height, at the clock's time or one second after the one before it where that is later, and so later than its own chain's median time past; or an error exactly where one is not solved |
| Coins.CoinsFromPays | src/bitcoin_node_tests/mini_wallet.py:817-839 | the new coins of a transaction are exactly its outputs paying the wallet, each once |
| Coins.ScanIsOneFilter | src/bitcoin_node_tests/mini_wallet.py:685-692 | the ordered scan leaves the cache and the added coins less the inputs of the whole list exactly when the list is in spend order, and otherwise leaves strictly more |
| CoinSelection.SortCoinsSorts | src/bitcoin_node_tests/mini_wallet.py:764-766 | the sort is by value, then by height downwards, and a permutation |
| CoinSelection.GetUtxoCoin | src/bitcoin_node_tests/mini_wallet.py:764-784 | a coin is answered if and only if one is of the transaction and output asked for, held by a block where that is asked, and without a txid spendable in the next block; of those it is one of the greatest value and then the least height, and with a txid of the least value and then the greatest height |
| CoinSelection.GetUtxoCache | src/bitcoin_node_tests/mini_wallet.py:764-784 | the cache is left sorted, with the same coins but the one answered, and that only where it is marked spent |
| CoinSelection.KeptExactly | src/bitcoin_node_tests/mini_wallet.py:786-806 | what `get_utxos` answers is exactly the coins that pass the filters, each where it stood in the cache and so in its order |
| WalletState.AtHeightCoins | src/bitcoin_node_tests/mini_wallet.py:699-701 | a block's own transactions' coins take its height, every other coin and the order stay |
| WalletState.SubsidyHalves | src/bitcoin_node_tests/mini_wallet.py:702-709 | the coinbase cached is worth fifty coins for the first 150 heights, and for every height half of what it was 150 before |
| WalletState.MineBlockOnTip | src/bitcoin_node_tests/mini_wallet.py:666-714 | one block of `generate` is on the tip, at the next height and later than the median time past, and a failed one leaves the tip |
| WalletState.GenerateOnTip | src/bitcoin_node_tests/mini_wallet.py:627-714 | the same of every block of a `generate`, for every clock, and however the call ends the next one starts from the invariant |
| MiniWallet.MiniWallet.constructor | src/bitcoin_node_tests/mini_wallet.py:562-573 | an empty cache at the node's tip, height and median time past |
| MiniWallet.MiniWallet.ScanOne | src/bitcoin_node_tests/mini_wallet.py:841-855 | the cache less what the transaction spends, then its new coins, and the transaction remembered as scanned |
| MiniWallet.MiniWallet.ScanConfirmed | src/bitcoin_node_tests/mini_wallet.py:685-692 | each confirmed transaction is scanned once, drops its inputs either way, and the added outpoints are the unscanned ones' |
| MiniWallet.MiniWallet.GenerateOne | src/bitcoin_node_tests/mini_wallet.py:666-714 | a block answered was solved and accepted, stands on the wallet's tip one higher, pays the wallet, carries exactly the confirmed transactions and is the new tip; one not solved or refused raises RuntimeError or TypeError and changes nothing; the whole state after either |
| MiniWallet.MiniWallet.Generate | src/bitcoin_node_tests/mini_wallet.py:627-714 | `count` blocks, all accepted, each on the one before it and paying the wallet, the first carrying exactly the confirmed transactions and the others nothing; where one raises, the state is that of the blocks before it but for what an accepted block had already scanned |
| MiniWallet.MiniWallet.Get | src/bitcoin_node_tests/mini_wallet.py:729-784 | the coin and cache that `GetUtxoCoin` and `GetUtxoCache` describe, or a LookupError |
| MiniWallet.MiniWallet.GetAll | src/bitcoin_node_tests/mini_wallet.py:786-815 | the coins at exactly the places of the cache whose coins pass the filters, in order, and marking spent empties the whole cache, coins kept out by the filters included |
| MiniWallet.MiniWallet.Send | src/bitcoin_node_tests/mini_wallet.py:996-1014 | an accepted transaction is scanned, a refused one changes nothing |
| MiniWallet.MiniWallet.Resync | src/bitcoin_node_tests/mini_wallet.py:575-616 | every coin re-read from the node's answer if and only if every answer is none or a positive count of confirmations, and otherwise the first that is neither stops it with the coins before already re-read; the tip, its height and its median time past are the node's |
| MiniWallet.MiniWallet.CreateSelfTransfer | src/bitcoin_node_tests/mini_wallet.py:919-994 | spends exactly one coin and reaches the size asked for; it costs the caller's own fee at every size, and otherwise the least whole number of satoshis at or above the rate over the target or over 104; it fails exactly on a negative rate or fee, no coin, a coin not above the fee, sequences that are not one, or a size below 114 |
| MiniWallet.MiniWallet.CreateSelfTransferMulti | src/bitcoin_node_tests/mini_wallet.py:1065-1136 | spends exactly the coins given, or one picked, into equal outputs, padded to the size asked for off the boundary set; succeeds if and only if the shares are positive, each coin has a sequence and the padding fits |
| MiniWallet.MiniWallet.CreateChain | src/bitcoin_node_tests/mini_wallet.py:1182-1206 | a chain of the length asked for, each spending the one before, of version 2 with lock time and sequence 0, exactly where the coin is above all the fees; only the first coin is ever picked |
| MiniWallet.MiniWallet.SendEach | src/bitcoin_node_tests/mini_wallet.py:1208-1229 | the list is sent up to the first the node refuses, every one before it accepted, and the state is that of the part sent |
| MiniWallet.MiniWallet.SendTo | src/bitcoin_node_tests/mini_wallet.py:1231-1264 | the payment and the change less the fee, of version 2 with lock time and sequence 0, if and only if a coin is picked that covers them and the node allows it; LookupError, ValueError or TypeError, each exactly where its own check fails, and then nothing scanned |
| Transfers.LeastFee | src/bitcoin_node_tests/mini_wallet.py:985-994 | the fee of a rate is the least integer at or above rate times size over 1000 |
| Transfers.FeeAsAsked | src/bitcoin_node_tests/mini_wallet.py:985-991 | the fee computed is the caller's own where it is not zero, at every size, and otherwise the least at or above the rate, and no other number is |
| Transfers.FundingPicks | src/bitcoin_node_tests/mini_wallet.py:977-981 | the caller's own coin with the cache left alone, or the choice of `get_utxo` taken from it, a confirmed one where that is asked |
| Transfers.InputsAsAsked | src/bitcoin_node_tests/mini_wallet.py:883-917 | one input for each coin, in order, with the one sequence number or its own |
| Transfers.SelfTransferCosts | src/bitcoin_node_tests/mini_wallet.py:883-917 | a self-transfer spends its coin alone, pays the wallet one coin, and costs exactly its fee |
| Transfers.MultiCosts | src/bitcoin_node_tests/mini_wallet.py:1117-1136 | n outputs cost n fees per output and a remainder below n |
| Transfers.MultiFitsIff | src/bitcoin_node_tests/mini_wallet.py:1113-1136 | a multi-output transfer can be built if and only if the coins are worth every fee and a satoshi for each output, there is a sequence for each coin, and an empty padding output fits the size asked for |
| Transfers.ChainCosts | src/bitcoin_node_tests/mini_wallet.py:1200-1206 | a chain of n costs n fees |
| Transfers.ChainLeavesLast | src/bitcoin_node_tests/mini_wallet.py:1208-1229 | sending a chain drops the coin it starts from and leaves only its last transaction's coin behind the rest |
| WalletRuns.SendKeepsIff | src/bitcoin_node_tests/mini_wallet.py:841-855 | a send keeps the wallet's invariant if and only if nothing sent or confirmed before spends a coin of it, which holds of every transaction new to the node |
| WalletRuns.ParentSentAfterChild | src/bitcoin_node_tests/mini_wallet.py:841-855 | a world in which sending the parent caches a coin its child has already spent |
| WalletRuns.BlockSpendOrdered | src/bitcoin_node_tests/mini_wallet.py:685-692 | a block a node accepts is in spend order, whatever the wallet has scanned before |
| WalletRuns.MinedCache | src/bitcoin_node_tests/mini_wallet.py:685-709 | after a block, the cache is the coins cached or added, less those the block and the mempool spend, at the block's height where it is theirs, with the coinbase behind |
| WalletRuns.GenerateIsMine | src/bitcoin_node_tests/mini_wallet.py:666-714 | an accepted block of `generate` is the step the runs take, mempool spends included |
| WalletRuns.UnreadKeepsIff | src/bitcoin_node_tests/mini_wallet.py:680-714 | an accepted block of a `generate` that then raises over the mempool's answer keeps the wallet's invariant if and only if no transaction sent or confirmed before spends a coin the block adds |
| WalletRuns.UnreadParentOfSent | src/bitcoin_node_tests/mini_wallet.py:680-714 | a world where such a `generate` confirms an unsent parent of a sent child, and leaves cached a coin the child has spent |
| WalletRuns.GenerateRaisesIs | src/bitcoin_node_tests/mini_wallet.py:680-714 | such a `generate` raises exactly where it adds a coin, and leaves its transactions scanned, no coinbase cached and the tip behind |
| WalletRuns.ResyncReadsLedger | src/bitcoin_node_tests/mini_wallet.py:599-616 | a node answering its confirmations gives each coin the height of the block holding it |
| WalletRuns.ResyncConfirms | src/bitcoin_node_tests/mini_wallet.py:599-616 | from a node that answers as its chain holds each coin, `resync` as `MiniWallet.Resync` leaves the cache raises nothing and is a step of the runs: a coin that is no coinbase is confirmed if and only if the UTXO set holds it, and then at its block's height |
| WalletRuns.MineKeeps | src/bitcoin_node_tests/mini_wallet.py:666-714 | a block keeps the wallet's invariant |
| WalletRuns.TakeKeeps | src/bitcoin_node_tests/mini_wallet.py:729-815 | taking coins keeps it |
| WalletRuns.ResyncKeeps | src/bitcoin_node_tests/mini_wallet.py:575-616 | a resync keeps it, one stopped at an unusable answer included |
| WalletRuns.RunKeeps | src/bitcoin_node_tests/mini_wallet.py:551-560 | in every run, of sends and raising `generate`s that meet the conditions of `SendKeepsIff` and `UnreadKeepsIff`, whole blocks, takes, and resyncs cut short or not, no outpoint is cached twice, each enters the cache once at most, no cached coin is an input of anything sent or confirmed, and values and heights are the ledger's |
| WalletRuns.StartsTrue | src/bitcoin_node_tests/mini_wallet.py:562-573 | a new wallet over any node starts from that invariant |
| WalletValue.ValueConserved | src/bitcoin_node_tests/mini_wallet.py:685-709 | over every run of sends, blocks confirming anything, raising blocks, takes and resyncs, the coins cached, held, left out for the mempool and forgotten come to the subsidies cached and what others' coins put in, less the fees and the amounts paid away |
| WalletValue.OwnValueConserved | src/bitcoin_node_tests/mini_wallet.py:685-709 | where every transaction, sent or only confirmed, spends the wallet's own coins, nothing comes from outside and the identity is exact |
| WalletValue.ForgetsNothingIff | src/bitcoin_node_tests/mini_wallet.py:786-815 | a `get_utxos` marking the cache spent loses no coin if and only if its filters keep them all |
| WalletValue.CoinsSound | src/bitcoin_node_tests/mini_wallet.py:817-839 | in every run, every coin cached or set apart is worth the output it names, and no outpoint is there twice |
| MempoolFill.LadderIff | src/bitcoin_node_tests/mempool_util.py:105-135 | the unpadded transaction is strictly cheapest and the padded feerates strictly increase if and only if the relay fee is at least 5 |
| MempoolFill.LowestGoesFirst | src/bitcoin_node_tests/mempool_util.py:105-117 | in every lowest-feerate-first eviction, over any other contents, a cheaper entry goes before a dearer one |
| MempoolFill.FirstGoesFirst | src/bitcoin_node_tests/mempool_util.py:105-135 | so the unpadded transaction is evicted before any padded one |
| MempoolFill.SendBatch | src/bitcoin_node_tests/mempool_util.py:108-133 | a batch is sent, each at its own coin, fee and exact size, of version 2 with lock time and sequence 0, if and only if every coin is above its fee and the node takes every transaction |
| MempoolFill.FillMempool | src/bitcoin_node_tests/mempool_util.py:69-151 | what it sent, with the checks that end it; it has its coins if and only if every block is mined, no pick of one ever failing, and from there it fails only with ValueError or TypeError on a transaction that cannot be sent, or AssertionError on a check that does not hold |
| Packets.KeptStable | src/bitcoin_node_tests/peer.py:415-429 | octets that arrive later never change the messages of the packets already whole |
| Packets.HonestEnd | src/bitcoin_node_tests/peer.py:268-279 | an honest stream is read packet by packet to its end, each with its own contents under its own index |
| Packets.HonestKept | src/bitcoin_node_tests/peer.py:415-429 | its messages are, in order, what the packets that are no decoy and decode come to, each packet's own and none left out |
| Packets.ReceivedPrefix | src/bitcoin_node_tests/peer.py:256-279 | of whatever prefix has arrived, the whole packets are the first ones sent, and no octet of a later one is consumed |
| Framing.MessagesStable | src/bitcoin_node_tests/peer.py:393-413 | octets that arrive later never change the v1 messages already whole |
| Framing.MagicFirst | src/bitcoin_node_tests/peer.py:400-405 | a head with another magic is refused as soon as the magic is there, and no other head is for its magic |
| PeerReceive.FindIsFirst | src/bitcoin_node_tests/peer.py:229-243 | the terminator found is the first, and none is missed |
| PeerReceive.FindsIt | src/bitcoin_node_tests/peer.py:229-243 | of the octets alone: what is found stands there, and wherever the terminator stands it is found there or before |
| PeerReceive.Peer.Recv | src/bitcoin_node_tests/peer.py:245-254 | at most 4096 octets, the rest left in order; an error or a close only where nothing is ahead of it |
| PeerReceive.Peer.Take | src/bitcoin_node_tests/peer.py:256-266 | exactly that many octets, or the error the socket has next, with all that came ahead of it still in the buffer |
| PeerReceive.Peer.TakeLength | src/bitcoin_node_tests/peer.py:274-276 | the length cipher is asked once per packet, a timeout before or after it notwithstanding |
| PeerReceive.Peer.ReceivePacket | src/bitcoin_node_tests/peer.py:268-279 | the packet of the next index under its own associated data, or an error that leaves the position alone and is reported only while the packet is not whole |
| PeerReceive.Peer.ReceiveV2 | src/bitcoin_node_tests/peer.py:415-429 | the message of the next packet that opens, is no decoy and decodes, every packet passed over on the way a decoy or undecodable; one that does not open is a ValueError and never passed over |
| PeerReceive.Peer.ReceiveV1 | src/bitcoin_node_tests/peer.py:393-413 | the next message of the stream's parse, a wrong magic refused as soon as it is there and never waited on, and nothing consumed on an error |
| PeerReceive.Peer.Receive | src/bitcoin_node_tests/peer.py:364-391 | what has been returned is always what the octets received come to, counted and kept per command; no wait is reported while a whole message is there, and ValueError only where the octets do not parse |
| PeerReceive.Peer.IsConnected | src/bitcoin_node_tests/peer.py:301-324 | connected exactly where the octets there are end in a wait rather than a close, a reset or `close`, and every octet read is kept for `receive` |
| PeerReceive.Peer.WaitFor | src/bitcoin_node_tests/peer.py:431-472 | returned if and only if a message received in the call is of the command and passes the test, and then that one, the last read; ValueError only on octets that do not parse or on the last message, a ping without a nonce or one the test cannot read; otherwise the deadline, or an interruption with every whole message read; the pings received are answered in order |
| PeerReceive.PongsExactly | src/bitcoin_node_tests/peer.py:463-468 | every ping received is answered once, in order, with its own nonce, and nothing else is |
| PeerReceive.Peer.SyncWithPing | src/bitcoin_node_tests/peer.py:505-534 | two pings go out, and it returns if and only if a pong with the second one's nonce is received; ValueError only on a ping or pong without a nonce or octets that do not parse, and any other error only at the deadline or an interruption |
| PeerReceive.Peer.OpensWithV1Version | src/bitcoin_node_tests/peer.py:214-227 | nothing is consumed; yes exactly on the whole header, no exactly on the first octet that differs |
| PeerReceive.Peer.TakeGarbage | src/bitcoin_node_tests/peer.py:229-243 | the octets ahead of the first terminator, within 4095, both consumed; refused exactly where the bound is reached without it |
| PeerReceive.Peer.ReadHandshake | src/bitcoin_node_tests/peer.py:196-212 | key, garbage, terminator, decoys and version packet are read, and not one octet past them; ValueError exactly on a missed terminator or a packet that fails authentication, and otherwise the socket's own interruption, with every octet there read and the handshake not yet whole |
| PeerReceive.HonestReturned | src/bitcoin_node_tests/peer.py:245-279 | whatever the chunks, timeouts and probes, the messages returned are, in order, what the first packets sent that are no decoy decode to, none left out, and each cipher has advanced once per packet |
| PeerReceive.HonestComplete | src/bitcoin_node_tests/peer.py:415-429 | with an honest stream all there, a wait is due if and only if every packet has been read |
| Handshake.GarbageFound | src/bitcoin_node_tests/peer.py:229-243 | for every garbage up to 4095 and every part delivered, the terminator is found where it was sent, and missed only before it is all there |
| Handshake.PhaseKeeps | src/bitcoin_node_tests/peer.py:181-212 | every step of either side keeps what it has sent and read in accord with its phase, and neither side ever fails or falls back to v1 |
| Handshake.NoDeadlock | src/bitcoin_node_tests/peer.py:181-212 | until both sides are done, one can go on or octets can be delivered |
| Handshake.RunEnds | src/bitcoin_node_tests/peer.py:181-212 | every run is bounded, so every run that is not cut short ends with both done |
| Handshake.DoneReads | src/bitcoin_node_tests/peer.py:268-279 | a side that is done has opened as many packets as the other sealed, the garbage authenticated by the first alone, and consumed no application octet |
| Handshake.Completes | src/bitcoin_node_tests/peer.py:181-212 | in every run neither side fails, and one that can go no further leaves both done |
| Handshake.HonestHandshake | src/bitcoin_node_tests/peer.py:196-212 | after `ReadHandshake` on an honest other side's octets, in any chunks, the garbage is the other's, as many packets were read as it sealed, and what is left unread is what it said after its handshake |
| PingBarrier.WaitingSends | src/bitcoin_node_tests/peer.py:456-472 | while it waits, the peer sends the answers to the pings it receives, once each, in order, and nothing else |
| PingBarrier.Barrier | src/bitcoin_node_tests/peer.py:505-534 | with any traffic pending either way, once the nonce is back every message sent before the pings has been handled, and both pings |
| PingBarrier.SyncIsBarrier | src/bitcoin_node_tests/peer.py:505-534 | `SyncWithPing` returning makes that barrier: everything sent before has been handled, and what was sent since is what its outbox shows |
| PingBarrier.FirstPingHandledApart | src/bitcoin_node_tests/peer.py:508-521 | and the first ping was handled by a step of its own before the second |
| Socks5Negotiation.RoundTrip | src/bitcoin_node_tests/socks5.py:403-442 | for every well-formed client the request is the one encoded, with credentials exactly where enabled and X'02' offered, the replies are the RFCs' own octets, and no octet past the client's is read |
| Socks5Negotiation.MethodDecides | src/bitcoin_node_tests/socks5.py:413-424 | of any octets: X'02' where enabled and offered is answered and credentials asked for, otherwise X'00' where offered and none asked for, and otherwise it ends with X'FF' |
| Socks5Negotiation.NoMethod | src/bitcoin_node_tests/socks5.py:413-423 | a client with no acceptable method is answered X'FF' and refused, having read its methods alone |
| Socks5Negotiation.OnlyClients | src/bitcoin_node_tests/socks5.py:403-442 | nothing is accepted but what a well-formed client writes |
| Socks5Server.Connection.Receive | src/bitcoin_node_tests/socks5.py:128-140 | exactly that many octets, however they come, or the error the socket has next, short of them |
| Socks5Server.ReceiveDestination | src/bitcoin_node_tests/socks5.py:432-440 | the request part as specified on exactly the octets read for it |
| Socks5Server.Negotiate | src/bitcoin_node_tests/socks5.py:403-442 | what it returns or raises is what its octets come to, answered in full, and nothing is read past them; the method answered and whether a request has credentials follow from the methods offered alone; a lost connection comes before the end or cuts an answer short |
| Socks5Server.ClientNegotiated | src/bitcoin_node_tests/socks5.py:403-442 | so of a well-formed client's stream, in any chunks, it is never refused, and what is accepted is the request encoded with the rest unread |
| Socks5Server.ClientServed | src/bitcoin_node_tests/socks5.py:403-442 | a well-formed client whose octets all come ahead of a pause, no write to it breaking, is answered in full and its request returned, with the rest unread |
| Socks5Server.Forward | src/bitcoin_node_tests/socks5.py:445-462 | each end is sent a prefix of what the other gave, in order, and all of it unless a write broke; only that, or an end with nothing more to give, stops it early |
| Socks5Close.RunKeeps | src/bitcoin_node_tests/socks5.py:334-401 | every interleaving keeps one owner per connection and the order of the queue |
| Socks5Close.NoneForwardedAfter | src/bitcoin_node_tests/socks5.py:305-309 | once `close` has begun, the set of forwarded connections never grows |
| Socks5Close.HeldOrForwarded | src/bitcoin_node_tests/socks5.py:344-365 | no connection is ever both held and forwarded |
| Socks5Close.RequestFirst | src/bitcoin_node_tests/socks5.py:349-396 | a forwarding failure is queued behind its own request |
| Socks5Close.ForwardedShutDown | src/bitcoin_node_tests/socks5.py:309-312 | while `close` waits for the threads, every connection still forwarded has been shut down |
| Socks5Close.AllClosed | src/bitcoin_node_tests/socks5.py:305-326 | where `close` returns with its joins completed, no accepted connection is open and none is forwarded |
| Socks5Close.LeavesNothingIff | src/bitcoin_node_tests/socks5.py:318-326 | when `close` comes to its joins, in any run, every way on leaves nothing open once it has returned, expired joins or not, if and only if the serving thread has exited and no thread is still forwarding |
| Socks5Close.ExpiredJoinLeaves | src/bitcoin_node_tests/socks5.py:318-321 | a run where the serving thread's join expires, and which leaves a connection open |
| Socks5Close.ExpiredForwarderLeaves | src/bitcoin_node_tests/socks5.py:324-326 | a run whose serving thread has exited and whose forwarder's own join expires, and which leaves its connection open |
| Socks5Queue.ReportedOnce | src/bitcoin_node_tests/socks5.py:334-358 | in every run nothing is queued twice, no connection is queued both as a request and as a refusal, every connection the serving thread is done with has been queued but for the one it exits on, and what is held or forwarded was queued as a request |
| Socks5Queue.FailureQueuedIff | src/bitcoin_node_tests/socks5.py:376-401 | what a factory or destination raises is queued, by the time its thread has finished, if and only if `close` had not begun when it was caught |
| Socks5Queue.NegotiatingShutIff | src/bitcoin_node_tests/socks5.py:313-316 | a client negotiating at any point after `close` has looked was shut down if and only if the serving thread was already seen to negotiate it; the only other is one past the check for `close` and not yet seen |
| Socks5Queue.UnshutNegotiates | src/bitcoin_node_tests/socks5.py:337-343 | a run in which such a client negotiates, not shut down, while `close` waits for the serving thread |
| NodeLifecycle.OnlyRunningIff | src/bitcoin_node_tests/node.py:734-899 | a call leaves the held process the only one alive if and only if no kill of it goes unseen and no wait of `stop` for a live process is interrupted |
| NodeLifecycle.RaisingLeavesNone | src/bitcoin_node_tests/node.py:764-832 | a start, stop or restart that raises leaves no process and no connection, unless a kill went unseen or a wait was interrupted |
| NodeLifecycle.RunHoldsItsProcess | src/bitcoin_node_tests/node.py:734-927 | over every run, the only process alive is the one held, and no connection outlives it |
| NodeLifecycle.EverySpawned | src/bitcoin_node_tests/node.py:739-756 | every argv spawned in a run is the command and the constructor's arguments, or the checked ones of one restart |
| NodeLifecycle.Node.Start | src/bitcoin_node_tests/node.py:734-774 | refused where a process is held, and otherwise the command and the constructor's arguments spawned; held and connected where it answered, and else forgotten, alive exactly where its kill's wait did not end, with the error of each outcome |
| NodeLifecycle.Node.Stop | src/bitcoin_node_tests/node.py:818-832 | the process is forgotten and the sessions closed whatever ends the waits; RuntimeError exactly where it exited with a code other than 0, TimeoutError where it had to be killed, or whatever a wait itself raises |
| NodeLifecycle.Node.Terminate | src/bitcoin_node_tests/node.py:875-899 | the process is gone exactly where a wait saw it end, and TimeoutError is raised only for a killed process that was seen to end: a wait after the kill that expires raises subprocess's TimeoutExpired instead |
| NodeLifecycle.Node.WaitUntilStopped | src/bitcoin_node_tests/node.py:856-872 | forgotten exactly where it exited, with its code, and otherwise nothing changes: RuntimeError where none is held, TimeoutError where the wait expires |
| NodeLifecycle.Node.Restart | src/bitcoin_node_tests/node.py:921-927 | refused arguments leave the node running, a stop that raises starts nothing, and otherwise the command is spawned with this restart's arguments alone |
| PortCursor.BlocksDisjoint | src/bitcoin_node_tests/node.py:145-151 | every block is a slice of the range, and two workers share a port if and only if their numbers agree modulo the count, which is at most the number of ports |
| PortCursor.WorkerBlockEnds | src/bitcoin_node_tests/node.py:131-151 | outside a numbered worker, and for one without a count, the whole range; an error exactly where the count is no number or zero |
| PortCursor.WorkersDisjoint | src/bitcoin_node_tests/node.py:131-151 | two of the numbered workers of one run, as the two variables name them, draw from blocks of one size that share no port |
| PortCursor.NoRepeat | src/bitcoin_node_tests/node.py:176-182 | a port comes round again only a full lap later |
| PortCursor.Cursor.Take | src/bitcoin_node_tests/node.py:166-191 | at most one lap, the accepted ports in order, and an error exactly where the lap ends short |
| PortCursor.TakeFailsIff | src/bitcoin_node_tests/node.py:176-191 | against a fixed set of busy ports it fails if and only if fewer than `count` ports of the block are free |
| PortCursor.AnsweredApart | src/bitcoin_node_tests/node.py:166-172 | over successive calls a port is answered again only a lap or more later |
| ArgvGuard.CheckExtraArgs | src/bitcoin_node_tests/node.py:364-387 | a ValueError exactly where an argument is refused |
| ArgvGuard.GuardPreserves | src/bitcoin_node_tests/node.py:364-387 | appended after the command, accepted arguments leave every occurrence and so the value of every setting of the command, negations and the chain included |
| ArgvGuard.AcceptsIff | src/bitcoin_node_tests/node.py:341-387 | with one dash or two, arguments are accepted if and only if none sets what the command sets |
| Btcd.CheckShortAliases | src/bitcoin_node_tests/btcd.py:91-115 | a ValueError exactly where a run of letters, read up to the first that takes a value, sets an option of the command |
| Btcd.LettersSet | src/bitcoin_node_tests/btcd.py:91-115 | the options a run of letters sets are those of its letters up to the first that is no `V`, that one included |
| Btcd.AliasAcceptsIff | src/bitcoin_node_tests/btcd.py:91-115 | runs of letters are accepted if and only if none of their letters sets what the command sets |
| Btcd.AliasGuardPreserves | src/bitcoin_node_tests/btcd.py:91-115 | with both checks passed, only the command's own tokens set its options, under btcd's letter-by-letter reading |
| Btcd.SpelledForBtcd | src/bitcoin_node_tests/btcd.py:118-140 | every entry in order, each as btcd spells it, and an error exactly where one cannot be |
| Btcd.WhitelistSpelled | src/bitcoin_node_tests/btcd.py:129-140 | a whitelist entry keeps its address exactly where its permissions, directions aside, are `noban` alone |
| Btcd.OtherSpelled | src/bitcoin_node_tests/btcd.py:128-140 | an entry that is no whitelist is kept as it is, and a whitelist without permissions is refused |
| ChainBook.RunHeights | src/bitcoin_node_tests/feature_block.py:477-558 | over every run of calls, a height that is answered is the block's number of parent links |
| ChainBook.Chain.Height | src/bitcoin_node_tests/feature_block.py:477-479 | a height answered is the block's number of parent links, and a KeyError says that no height is known under its hash |
| ChainBook.RebuildForgets | src/bitcoin_node_tests/feature_block.py:525-542 | what one rebuild does to every other name: exactly a name that shared the old hash loses its height, unless the new hash is its own |
| ChainBook.KnownIff | src/bitcoin_node_tests/feature_block.py:525-542 | while every height is known, a call ends that if and only if it rebuilds a shared block under a new hash |
| ChainBook.RunKnown | src/bitcoin_node_tests/feature_block.py:477-558 | a run with no such rebuild keeps every height known |
| ChainBook.NextBlockTotals | src/bitcoin_node_tests/feature_block.py:507-523 | a block built in any run creates the subsidy of its own number of links, the value it spends and the extra asked for |
| ChainBook.NextBlockStands | src/bitcoin_node_tests/feature_block.py:497-523 | it stands on the tip, a second later and one link further, commits to its transactions, carries a coinbase of its own height with the outputs asked for and spends the output asked for and nothing else, and is found at its height under its name |
| ChainBook.RebuildStays | src/bitcoin_node_tests/feature_block.py:533-542 | a rebuilt block keeps its parent, its links and its height, and its time unless another is asked for |
| ChainBook.BuiltAlike | src/bitcoin_node_tests/feature_block.py:449-475 | two names asked for the same block share a hash if and only if nothing in it has to be signed |
| ChainBook.CopySharesHash | src/bitcoin_node_tests/feature_block.py:1095-1126 | a block of m * 2^k transactions and its copy with the last 2^k repeated share a hash if and only if m is above 1, and the copy is told from it either way |
| ChainBook.Chain.NextBlock | src/bitcoin_node_tests/feature_block.py:486-523 | the block and book of the run model; AssertionError exactly for a name built already, KeyError exactly for a tip without a height, IndexError for nothing to spend, each leaving the book alone |
| ChainBook.Chain.Rebuild | src/bitcoin_node_tests/feature_block.py:525-542 | parent, version and bits kept under the transactions and time asked for, the old hash's height moved to the new hash and no other entry touched; a KeyError exactly where the name or its height is unknown, changing nothing |
| ChainBook.Chain.UpdateBlock | src/bitcoin_node_tests/feature_block.py:544-549 | a rebuild of the old transactions with the new ones behind them |
| ChainBook.Chain.UpdateCoinbase | src/bitcoin_node_tests/feature_block.py:551-554 | a rebuild with the first transaction replaced and every other kept in its place |
| ChainBook.Chain.MoveTip | src/bitcoin_node_tests/feature_block.py:556-558 | the tip is the named block, blocks and heights untouched, or a KeyError exactly where there is none |
| Merkle.UpRepeat | src/bitcoin_node_tests/feature_block.py:1112-1124 | repeating an even number of last hashes repeats half as many one level up |
| Merkle.RepeatedDetected | src/bitcoin_node_tests/feature_block.py:1098-1126 | two equal neighbours stand exactly k levels up |
| Merkle.RepeatedBlock | src/bitcoin_node_tests/feature_block.py:1095-1126 | for every list of m * 2^k transactions with m odd, the copy is detectable, and keeps the root if and only if m is above 1 |

## Left out

- Library code: transaction, block and message serialization, script building, signatures, solving a header, the
  ciphers, and the checks the library makes of the values it is handed, an output value out of range among them.
- MiniWallet: a compact size of 2^64 or more, a coinbase's witness commitment and extra outputs, `build_next_block`,
  and a node whose answers change between two RPC reads of one call.
- WalletRuns: a reorganisation that lowers the height between two calls; `resync` runs over the chain as it stands.
- WalletValue: a transaction sent twice, which the cache then counts twice, and a resync to a lower height, after
  which another block's coinbase has the height that here tells coinbases apart.
- Peer: what follows a packet that failed authentication, after which BIP324 has the connection closed; `send`'s
  framing, `wait_for_disconnect`, `handshake` and `Listener`.
- WaitFor: the deadline is a number of reads rather than a clock, so only which read it falls before is modelled.
- Handshake: the number and size of the decoys are any, not the ten of a hundred octets the source draws up to.
- Socks5Close: a second `close`, which returns at once; the list of forwarders growing and its thread starting are
  one step; the listening socket and the unix socket's directory.
- Forward: which end `select` finds readable is a parameter, and two ends readable at once are read one after the
  other as there.
- NodeLifecycle: stderr files, logs and messages; only which error is raised, and what is left running. An
  interrupt is modelled where the adapter waits for its process, not between two of its statements.
- WorkerBlock: decimal digits outside ASCII, and a worker count written with a sign or spaces.
- Take: a block of no ports, for which the cursor cannot be built.
- ArgvGuard: an adapter whose own command spells an option with three dashes, or with a name that begins with one.
- Btcd: a value given as the next token rather than behind `=`, and the translation of replies.
- ChainBook: `save_spendable_output`, `get_spendable_output`, the steps emitted and the concrete sequence of `steps()`.
- `bitcoind.py`, `btclib_node.py`, `debug_log.py`, `timeout_factor.py`, `capability.py` and the RPC polling helpers:
  each is settled by one branch, or by the environment.
