# Verified model of the FireFly ERC20/ERC721 token connector

A Dafny model of the connector's logic, with proofs of what it keeps. `dafny verify dfyconfig.toml` checks
all of it.

The connector stands between FireFly and a blockchain connector. It turns token requests into contract calls,
subscribes to the logs of token contracts, and hands their reports to websocket clients, each batch to one
client, acknowledging upstream what the clients acknowledge. The model has four parts.

**The event-stream proxy** is a state machine with one step per handler and per continuation of an `await`, so
a run is any interleaving the JavaScript event loop can produce; its state keeps a history of everything said
upstream. `EventStreamProxy.dfy` has the machine, `ProxyClass.dfy` a class with the source's fields and loops
whose methods are proved to take exactly the machine's steps, `ProxyInvariants.dfy` what every run keeps,
`ProxyProperties.dfy`, `ProxyOrder.dfy` and `ProxyPaced.dfy` what follows, and `ProxyLists.dfy` which elements
its list functions pick, in the terms of `Picking.dfy`: each as often as it is there, and in the same order.
Fresh ids stand for `uuidv4`, and `send` may select any client of the set. `EventStreamSocket.dfy` is the
machine of one reconnecting websocket. `ProxySockets.dfy` puts the two together: every socket of the proxy
drops, reconnects and is told what the proxy says. `ProxyWire.dfy` has the frames that then go out, and
`ProxyWitnesses.dfy` short runs in which things go wrong.

**The codecs** are printers and parsers down to the bytes: UTF-8, hex, percent-encoding, form encoding,
decimal numbers (`Utf8.dfy`, `Hex.dfy`, `UriCoding.dfy`, `FormCoding.dfy`, `EventIds.dfy`, `Text.dfy`), with
`TokensUtil.dfy` built on them. A Dafny string is a well-formed JavaScript string; `JsStrings.dfy` says what
happens to those that are not.

**The choice of a contract method** is a search of an ABI by prioritized signatures (`AbiMapper.dfy`), over the
tables of `Erc20.dfy` and `Erc721.dfy` and the requests of `Requests.dfy`. Signatures carry their parameter
functions as values. What a call does on the chain is decoded from its method name and parameters alone, and
compared with the request.
`CheckInterface.dfy` is the filter that later requests search again, and `InterfaceSupport.dfy` the cached
interface queries with the schema and ABI they lead to.

**Registry, migration, retries and reports**: `Registry.dfy` has calls that look first and act later on an
abstract upstream registry, in any interleaving, `Pools.dfy` activation and deactivation over it, `Streams.dfy`
the streams; `Migration.dfy` has the check for old subscriptions; `RetryLoop.dfy` the back-off loop over the
outcomes its calls would have, with real-valued waits; `TokensListener.dfy` and `Ledger.dfy` the reports of
logs and the ledgers kept from them; `RequestReports.dfy` the way from a request to the report of its log.

## Where the code differs from what it seems to say

Each of these is proved, with the exact condition where there is one.

- A client ack reaches upstream only when the client's whole in-flight list is then empty: the test for other
  messages of the same batch negates an array (eventstream-proxy.base.ts:247).
- A disconnect nacks only messages of the first namespace in map order, the one open longest, since the list is
  dropped inside the loop over namespaces (eventstream-proxy.base.ts:151).
- A socket that nothing refers to stays able to talk exactly after a start resumed over the socket of its
  namespace (eventstream-proxy.base.ts:99-111), or after a last client left while the socket waited to
  reconnect: `close()` is forgotten then, because every connection attempt resets the flags
  (event-stream.service.ts:58-60). For the same reason the message for a restored connection is never logged.
- A start that resumes after its client left keeps the namespace open for ever (eventstream-proxy.base.ts:94-116).
- An ack made while the socket of its message is not open is lost (event-stream.service.ts:109-115).
- A failed interface query is cached as no support, over an earlier answer too if both queries were under way.
  With that, or with an eviction and a failure, an ABI is selected whose interface the contract never reported
  (abimapper.service.ts:122-141, 207-227).
- Overlapping activations of one pool duplicate a subscription exactly when one call takes its list while the
  subscription is absent and another is about to make it (event-stream.service.ts:320-327).
- With several bad subscription names, their order decides whether the migration check warns or throws.
- Two event identifiers sort as the chain does exactly when, in the first field that differs, the texts are
  equally wide or the narrower number is not above the leading digits of the wider (tokens.listener.ts:97-106).
- README.md:99-101 of the connector says an index is ignored where a contract indexes by itself; the code
  rejects it (erc721.ts:391-395), even when a later signature would have taken it. The model follows the code.
- The name in a report of an ApprovalForAll log is taken from the untrimmed signature (tokens.listener.ts:341).
- After the last allowed failure the retry loop waits once more before it gives up.

## Model

| member | source | states |
|---|---|---|
| ProxyClass.EventStreamProxy.constructor | src/eventstream-proxy/eventstream-proxy.base.ts:43-60 | A new proxy is the initial state of the machine: no namespaces, nothing in flight, nothing queued |
| ProxyClass.EventStreamProxy.HandleConnection | src/eventstream-proxy/eventstream-proxy.base.ts:67-72 | A connecting client gets an empty in-flight list, unless it has one |
| ProxyClass.EventStreamProxy.StartListening | src/eventstream-proxy/eventstream-proxy.base.ts:94-101 | A start does nothing unconfigured, joins at once if the namespace has a socket, and otherwise waits for one |
| ProxyClass.EventStreamProxy.ResumeListening | src/eventstream-proxy/eventstream-proxy.base.ts:101-116 | A start that resumes stores its socket whatever is there by now, and joins the client set |
| ProxyClass.EventStreamProxy.OnEvents | src/eventstream-proxy/eventstream-proxy.base.ts:90-106 | A batch joins the end of the queue |
| ProxyClass.EventStreamProxy.GetSubscriptionName | src/eventstream-proxy/eventstream-proxy.base.ts:208-224 | The cached name if there is one, else the answer of upstream, which is cached unless it is missing or failed |
| ProxyClass.EventStreamProxy.CallListeners | src/eventstream-proxy/eventstream-proxy.base.ts:178-183 | One handler per listener, in listener order |
| ProxyClass.EventStreamProxy.ResolveNext | src/eventstream-proxy/eventstream-proxy.base.ts:169-184 | One turn of the loop over events: an unknown subscription ends the batch, a known one calls every listener |
| ProxyClass.EventStreamProxy.CollectMessages | src/eventstream-proxy/eventstream-proxy.base.ts:186-196 | The awaited results in handler order, without undefined and failed ones |
| ProxyClass.EventStreamProxy.FinishBatch | src/eventstream-proxy/eventstream-proxy.base.ts:186-206 | The batch message is built and sent, and the queue moves on |
| ProxyClass.EventStreamProxy.Send | src/eventstream-proxy/eventstream-proxy.base.ts:258-273 | The message goes to the one selected client of the namespace and onto its in-flight list, or nowhere without clients |
| ProxyClass.EventStreamProxy.HandleAck | src/eventstream-proxy/eventstream-proxy.base.ts:226-256 | An ack takes its message off the list and reaches upstream only when the list is then empty |
| ProxyClass.EventStreamProxy.NackInFlight | src/eventstream-proxy/eventstream-proxy.base.ts:142-150 | A nack for each in-flight message of the namespace, in list order |
| ProxyClass.EventStreamProxy.HandleDisconnect | src/eventstream-proxy/eventstream-proxy.base.ts:135-160 | The loop over all namespaces comes to the single step the machine takes for a disconnect |
| ProxyInvariants.StepIsStructural | src/eventstream-proxy/eventstream-proxy.base.ts:94-160 | Every step keeps: namespaces with a socket are those with a client set, no set is empty, and a message is held only by a member of its namespace |
| ProxyInvariants.StepKeepsLifecycle | src/eventstream-proxy/eventstream-proxy.base.ts:135-273 | Every step keeps: a message has one holder and one place there, was sent to its holder, and is acked or nacked at most once and then held no more |
| ProxyInvariants.EveryRun | src/eventstream-proxy/eventstream-proxy.base.ts:94-273 | Both invariants hold in every state of every run, however handlers and awaits interleave |
| ProxyProperties.AnswersRemove | src/eventstream-proxy/eventstream-proxy.base.ts:135-256 | In every step, each new upstream ack or nack is for a message the same client held before and nobody holds after, through the socket of its namespace |
| ProxyProperties.AckRule | src/eventstream-proxy/eventstream-proxy.base.ts:226-256 | Acking no id or one that is not held changes nothing; acking a held one removes that message alone and reaches upstream exactly when the client held nothing else |
| ProxyProperties.FirstOfTwoAcksIsLost | src/eventstream-proxy/eventstream-proxy.base.ts:241-251 | Of two batches in flight with one client, only the one acked last is acked upstream |
| ProxyProperties.AckTakesOut | src/eventstream-proxy/eventstream-proxy.base.ts:241-245 | An ack takes its message from its place in the list and leaves the others in their order |
| ProxyProperties.DisconnectNacksFirstNamespace | src/eventstream-proxy/eventstream-proxy.base.ts:135-160 | A disconnect says a nack for each in-flight message of the first namespace, in the order of the client's list, and then the close of each namespace the client was the only one of, in the order of the map, and nothing else; afterwards the client is in no set and holds nothing |
| ProxyProperties.NacksInListOrder | src/eventstream-proxy/eventstream-proxy.base.ts:143-150 | Of two in-flight messages of the first namespace, the one given to the client first is nacked first |
| ProxyProperties.NamespacesInOpeningOrder | src/eventstream-proxy/eventstream-proxy.base.ts:94-160 | In every run the map lists the open namespaces in the order they were opened in, so the first one is the one open longest |
| ProxyProperties.AllNackedIff | src/eventstream-proxy/eventstream-proxy.base.ts:145-151 | Every in-flight message is nacked if and only if all are of the first namespace in map order |
| ProxyProperties.SingleNamespaceNacksAll | src/eventstream-proxy/eventstream-proxy.base.ts:135-160 | With a single open namespace every in-flight message of the client is nacked |
| ProxySockets.ActionStrands | src/eventstream-proxy/eventstream-proxy.base.ts:94-160 | Every step of the proxy and of its sockets leaves a socket stranded exactly when a start resumes over a socket or a last client leaves while its socket waits to reconnect |
| ProxySockets.ReachableIffNoneStranded | src/eventstream-proxy/eventstream-proxy.base.ts:99-157 | At every moment of a run of proxy and sockets, the sockets that can still talk are those the proxy refers to, if and only if none was stranded so far |
| ProxySockets.CanTalkIff | src/event-stream/event-stream.service.ts:58-124 | A socket whose close was asked for with no reconnect pending never talks again, and every other one can, by itself |
| ProxyMachine.StepStarts | src/eventstream-proxy/eventstream-proxy.base.ts:94-116 | A start waits for a socket exactly while its namespace has none, and until it resumes or fails |
| ProxyProperties.MembersConnectedIff | src/eventstream-proxy/eventstream-proxy.base.ts:94-116 | Client sets hold only connected clients if and only if no start resumed after its client had gone |
| ProxySockets.NothingTalksWithoutClientsIff | src/eventstream-proxy/eventstream-proxy.base.ts:135-160 | With no client connected, no socket can talk if and only if no start resumed after its client left and no socket was stranded |
| ProxyProperties.NamespacesLeftIff | src/eventstream-proxy/eventstream-proxy.base.ts:135-160 | With no client connected, namespaces and sockets are left in the maps exactly when an absent client is a member of one |
| ProxyProperties.DeliveredIsTracked | src/eventstream-proxy/eventstream-proxy.base.ts:258-269 | Without such starts, a message given to a client is in flight with it, behind all it was given before |
| ProxyProperties.DeliverReachesMembers | src/eventstream-proxy/eventstream-proxy.base.ts:258-273 | Every member of the namespace may be the one that is given a batch, and nobody else |
| ProxyOrder.BatchesInArrivalOrder | src/eventstream-proxy/eventstream-proxy.base.ts:90-206 | Every run, whatever order promises settle in: the b-th result is that of the b-th batch, nothing when one of its own look-ups gave nothing, else one message with the results of its own calls, event by event and listener by listener |
| ProxyOrder.EveryRunGives | src/eventstream-proxy/eventstream-proxy.base.ts:166-224 | In a run no look-up and no call of a batch is answered twice, so its answers are functions of their positions |
| ProxyOrder.CollectIsResults | src/eventstream-proxy/eventstream-proxy.base.ts:186-196 | The messages collected from the settled calls are their defined results in order |
| ProxyOrder.FlatIsNested | src/eventstream-proxy/eventstream-proxy.base.ts:166-196 | The results of all calls in a row are, event by event, those of every listener |
| ProxyOrder.CacheChangesNothing | src/eventstream-proxy/eventstream-proxy.base.ts:208-224 | When upstream names are fixed, a run with the cache of subscription names is a run of the proxy without it |
| ProxyOrder.FoundNameStays | src/eventstream-proxy/eventstream-proxy.base.ts:208-224 | A subscription name once found is used in every later look-up of a run, whatever upstream answers by then, failures included |
| ProxyPaced.EveryValidAckReachesUpstream | src/eventstream-proxy/eventstream-proxy.base.ts:226-256 | With one namespace per client and one batch at a time, the acks asked of sockets are as many as the valid client acks |
| ProxyWire.AcksOnTheWire | src/event-stream/event-stream.service.ts:109-115 | In every run of proxy and sockets, the ack frames sent are as many as the client acks that found their message alone in flight and its socket open |
| ProxyWire.PacedAcksGoOut | src/event-stream/event-stream.service.ts:109-115 | With one namespace per client and one batch at a time, every valid client ack goes out once if the socket of its message is open, and no other does |
| ProxyWire.SocketsListen | src/event-stream/event-stream.service.ts:71-72 | In every run of proxy and sockets, the socket of a namespace has sent, apart from acks and nacks, a listen for topic/namespace and a listenreplies by turns, once for each of its connections |
| ProxyWire.AckGoesOut | src/event-stream/event-stream.service.ts:113-115 | The ack of the only message a client holds goes out once, for topic/namespace and with its batch number, on the socket of its namespace, and nothing else does |
| ProxyWire.NacksGoOut | src/event-stream/event-stream.service.ts:117-119 | The nacks of a disconnect go out on the socket of the first namespace, for topic/namespace, with their batch numbers and in list order, if it is open, and no other socket sends |
| ProxyWitnesses.OverlappingStartsLeakASocket | src/eventstream-proxy/eventstream-proxy.base.ts:99-111 | Two overlapping first starts: both sockets connect and open, and the first is unreachable |
| ProxyWitnesses.PendingReconnectOutlivesClose | src/event-stream/event-stream.service.ts:58-124 | The only client leaves while the socket waits to reconnect: it opens again with no client and no namespace left |
| ProxyWitnesses.AbsentMemberHoldsMessage | src/eventstream-proxy/eventstream-proxy.base.ts:94-116 | A start resumed after its client left: the next message is held by a client that is gone |
| SocketMachine.EventStreamSocket.constructor | src/event-stream/event-stream.service.ts:46-62 | A new socket connects at once |
| SocketMachine.EventStreamSocket.InitSocket | src/event-stream/event-stream.service.ts:58-63 | Every connection attempt resets both flags |
| SocketMachine.EventStreamSocket.OnOpen | src/event-stream/event-stream.service.ts:64-74 | An open websocket sends listen for topic/namespace and then listenreplies |
| SocketMachine.EventStreamSocket.OnClose | src/event-stream/event-stream.service.ts:75-85 | A close that was not asked for sets one reconnect timer |
| SocketMachine.EventStreamSocket.OnTimer | src/event-stream/event-stream.service.ts:83 | A timer that fires connects anew |
| SocketMachine.EventStreamSocket.SendAck | src/event-stream/event-stream.service.ts:109-115 | An ack goes out for topic/namespace when the websocket is open |
| SocketMachine.EventStreamSocket.SendNack | src/event-stream/event-stream.service.ts:117-119 | A nack goes out for topic/namespace when the websocket is open |
| SocketMachine.EventStreamSocket.Close | src/event-stream/event-stream.service.ts:121-124 | close() asks for the end and terminates the websocket |
| SocketMachine.EveryRunKeepsInv | src/event-stream/event-stream.service.ts:58-124 | In every run: at most one of a live websocket and a pending reconnect, one new websocket per unrequested drop, a listen and a listenreplies side by side for each connection, one log line for each connection, drop and requested close, and never a connection called restored |
| SocketMachine.EveryConnectionListens | src/event-stream/event-stream.service.ts:64-74 | In every run the frames that are no acks or nacks are twice as many as the connections: at even positions a listen for topic/namespace, at odd ones a listenreplies |
| SocketMachine.MissedPongSilences | src/event-stream/event-stream.service.ts:99-107 | After a missed pong nothing is sent until another websocket opens |
| SocketMachine.CloseIsFinalIff | src/event-stream/event-stream.service.ts:58-85 | After close() the socket never connects again if and only if no reconnect was pending |
| SocketMachine.CloseInRun | src/event-stream/event-stream.service.ts:121-124 | In a run, close() on a websocket that has not closed is final |
| Utf8.DecodeOneIff | src/tokens/tokens.util.ts:29-43 | The bytes of a character decode to it and no other bytes do (section 3 of RFC 3629) |
| Utf8.DecodeStrictIff | src/tokens/tokens.util.ts:29-43 | Decoding UTF-8 is the exact inverse of encoding it |
| Utf8.BytesOfChar | src/tokens/tokens.util.ts:29-35 | A character has one to four bytes by its code point, with the leading bits and payload of RFC 3629 |
| Hex.RoundTrip | src/tokens/tokens.util.ts:29-43 | decodeHex undoes encodeHex, except that a single null character comes back as nothing |
| Hex.InjectiveIff | src/tokens/tokens.util.ts:29-35 | Two strings share a hex form only if equal, or if they are nothing and the null character |
| Hex.HexText | src/tokens/tokens.util.ts:29-35 | The hex form is 0x and two lower-case digits for each byte of UTF-8, and 0x00 for nothing |
| Hex.DecodeOfBytes | src/tokens/tokens.util.ts:40-43 | Hex bytes decode alike with the prefix and without it |
| JsStrings.HexRoundTripIff | src/tokens/tokens.util.ts:29-43 | Over all JavaScript strings, decodeHex undoes encodeHex exactly on the well-formed ones other than the null character |
| JsStrings.UriRoundTripIff | src/tokens/tokens.util.ts:45-60 | encodeURIComponent throws exactly on ill-formed strings and is undone by decodeURIComponent on all others |
| UriCoding.DecodeEncodeURI | src/tokens/tokens.util.ts:45-60 | Percent-decoding undoes percent-encoding (section 19.2.6 of ECMA-262) |
| UriCoding.DecodeIff | src/tokens/tokens.util.ts:52-59 | decodeURIComponent gives a text exactly when every percent sign starts an escape and the bytes are those of the text in UTF-8, and throws on everything else |
| UriCoding.EncodedIsPlain | src/tokens/tokens.util.ts:45-50 | Percent-encoded text holds no separator |
| UriCoding.UnescapedStays | src/tokens/tokens.util.ts:45-50 | Letters, digits and the nine marks of ECMA-262 stay as they are |
| UriCoding.EscapedText | src/tokens/tokens.util.ts:45-50 | Any other character becomes a percent sign and two upper-case digits for each byte |
| FormCoding.ParseSerialize | src/tokens/tokens.util.ts:84-99 | Parsing undoes serializing for every list of names and values (sections 5.1 and 5.2 of the WHATWG URL Standard) |
| FormCoding.SerializedHasNoColon | src/tokens/tokens.util.ts:84-91 | A serialized list has no colon |
| FormCoding.KeptStays | src/tokens/tokens.util.ts:84-91 | Letters, digits and four marks stay as they are |
| FormCoding.OtherText | src/tokens/tokens.util.ts:84-91 | A space becomes a plus sign, any other character escapes |
| FormCoding.ThreePairs | src/tokens/tokens.util.ts:84-91 | Names and values are joined by equals signs and pairs by ampersands, in their order |
| Text.SplitJoin | src/tokens/tokens.util.ts:45-53 | Splitting undoes joining exactly when no part has the separator |
| TokensUtil.UnpackPackIff | src/tokens/tokens.util.ts:45-75 | A packed subscription name unpacks to what went in if and only if locator and event have no colon, keeping absent and empty pool data apart |
| TokensUtil.PackInjective | src/tokens/tokens.util.ts:45-50 | Colon-free names are equal only if locator, event and pool data are |
| TokensUtil.PackedNameText | src/tokens/tokens.util.ts:45-50 | The text of a subscription name: fft, locator, event and any encoded pool data, between colons |
| TokensUtil.UnpackByParts | src/tokens/tokens.util.ts:52-75 | What any text is taken for, by the number of its parts between colons: four with the prefix, three, two, or nothing |
| TokensUtil.UnpackedPacksAgain | src/tokens/tokens.util.ts:45-75 | What was unpacked can be packed and unpacked again, for any pool data |
| TokensUtil.UnpackPackLocator | src/tokens/tokens.util.ts:84-108 | A valid locator comes back whole and valid from its packed form, which has no colon |
| TokensUtil.PackedLocatorText | src/tokens/tokens.util.ts:84-91 | The text of a packed locator: address, schema and type, in this order |
| TokensUtil.UnpackLegacyLocator | src/tokens/tokens.util.ts:96-104 | A locator with the deprecated name of the schema field unpacks to the same |
| TokensUtil.ActivationDataReturns | src/tokens/tokens.service.ts:351-374 | The locator and pool data a pool is activated with come back from the name of each of its events |
| EventIds.ParsePrinted | src/tokens/tokens.listener.ts:99 | BigInt reads back what it prints |
| EventIds.ParsePrefixed | src/tokens/tokens.listener.ts:99 | Digits behind 0x, 0o and 0b are read to base sixteen, eight and two, and behind a plus sign to base ten |
| EventIds.ParsePlainIff | src/tokens/tokens.listener.ts:99 | Any other text is a number exactly when it is all decimal digits |
| EventIds.FormatIsEventId | src/tokens/tokens.listener.ts:97-106 | The identifier depends only on the position on the chain, however the transaction index is written and whether zero block and log are left out |
| EventIds.EventIdText | src/tokens/tokens.listener.ts:97-106 | The text of an identifier: twelve digits of the block, six of the transaction and six of the log, padded with zeros to these widths and no further |
| EventIds.EventIdInjective | src/tokens/tokens.listener.ts:97-106 | Different positions have different identifiers, whatever their size |
| EventIds.EventIdsSort | src/tokens/tokens.listener.ts:93-106 | Within the widths of the fields, identifiers sort as the chain does |
| EventIds.EventIdsSortIff | src/tokens/tokens.listener.ts:97-106 | Of any two positions, identifiers sort as the chain does if and only if, in the first field that differs, the texts are equally wide or the narrower number is not above the leading digits of the wider |
| EventIds.TooWideBreaksOrder | src/tokens/tokens.listener.ts:101-105 | Block ten to the twelfth sorts before the block below it |
| AbiMapper.SignatureMatch | src/tokens/abimapper.service.ts:143-153 | A method matches when its name and, in order, its input types are those of the signature |
| AbiMapper.GetAllMethods | src/tokens/abimapper.service.ts:155-165 | The entries matching each signature, in the order of the ABI, signature after signature |
| AbiMapper.GetMethodAndParams | src/tokens/abimapper.service.ts:167-180 | The applicable signature of highest priority, on the first entry that matches it, with its parameters or its exception; nothing when none applies |
| AbiMapper.ChoiceIsUnique | src/tokens/abimapper.service.ts:167-180 | This leaves one answer |
| AbiMapper.FilterKeepsChoice | src/tokens/abimapper.service.ts:155-180 | Searching an ABI filtered by a list that covers the signatures gives the same method, parameters or exception as searching the whole |
| AbiMapper.FilterIsIdempotent | src/tokens/abimapper.service.ts:155-165 | Filtering twice is filtering once, for tables whose signatures differ |
| AbiMapper.FilterIsStable | src/tokens/abimapper.service.ts:155-165 | Filtering keeps the order of the entries of each signature |
| AbiMapper.FilterKeepsOrder | src/tokens/abimapper.service.ts:155-165 | Of each signature the filtered list and the ABI have the same entries in the same order |
| AbiMapper.FilterIsGrouped | src/tokens/abimapper.service.ts:155-165 | The entries of a signature come before those of every later one |
| AbiMapper.FilterListsEachOnce | src/tokens/abimapper.service.ts:155-165 | Each entry that matches is listed as often as the ABI lists it, and no other |
| AbiMapper.ChosenFits | src/tokens/abimapper.service.ts:167-180 | The chosen method is from the ABI and gets as many parameters as it has inputs |
| InterfaceCheck.InterfaceServesAs | src/tokens/tokens.service.ts:439-456 | The interface answered by checkInterface serves every later request, for all operations and both kinds of token, as the ABI it was asked about |
| InterfaceCheck.RefusedIff | src/tokens/tokens.service.ts:439-443 | A locator is refused exactly when address, type, or schema under both its names, is missing |
| InterfaceCheck.InterfaceListsOnly | src/tokens/tokens.service.ts:449-455 | Each list of the answer has the methods that match its table, as often as they were offered, and no others |
| Erc20.TransferIsAsAsked | src/tokens/erc20.ts:217-246 | The call made for a transfer moves the amount asked from the holder asked to the receiver asked, and is never rejected |
| Erc20.TransferPriority | src/tokens/erc20.ts:217-246 | By name and types: transferWithData with the data if the contract has it, else transfer if it has that and the holder signs, else transferFrom, with these parameters, else no method |
| Erc20.BurnIsAsAsked | src/tokens/erc20.ts:159-196 | The call made for a burn burns the amount asked of the holder asked |
| Erc20.BurnPriority | src/tokens/erc20.ts:159-196 | Likewise for burns: burnWithData, burn of the signer, burnFrom, burn of a holder |
| Erc20.MintIsAsAsked | src/tokens/erc20.ts:198-215 | The call made for a mint mints the amount asked to the receiver asked |
| Erc20.MintPriority | src/tokens/erc20.ts:198-215 | Likewise for mints: mintWithData, mint |
| Erc20.ApprovalIsAsAsked | src/tokens/erc20.ts:136-157 | The call made for an approval gives the operator asked the allowance asked, nothing when approval is withdrawn, the largest when none is named |
| Erc20.ApprovalPriority | src/tokens/erc20.ts:136-157 | Likewise for approvals: approveWithData, approve, with nothing, the allowance given or two to the 256 less one |
| Erc20.LargestAllowance | src/tokens/erc20.ts:27 | The largest allowance is two to the 256 less one |
| Erc20.NoMethodIff | src/tokens/erc20.ts:159-246 | A transfer or burn finds no method exactly when the ABI offers none that names the holder, and none for the signer that is the holder |
| Erc20.ReportedIsAsked | src/tokens/tokens.listener.ts:274-278 | The flag reported for the allowance of a call is the one asked, except for approval with an allowance of nothing |
| Erc20.TransferTable | src/tokens/erc20.ts:217-246 | The signatures differ in shape, fill their inputs, and put the data in every bytes input |
| Erc20.BurnTable | src/tokens/erc20.ts:159-196 | The same for burns |
| Erc20.MintTable | src/tokens/erc20.ts:198-215 | The same for mints |
| Erc20.ApprovalTable | src/tokens/erc20.ts:136-157 | The same for approvals |
| Erc721.MintIsAsAskedOrRejected | src/tokens/erc721.ts:255-346 | The first signature the ABI offers decides a mint: rejected for a wrong amount, for a URI or an index its method has no input for, in that order, and otherwise receiver, index and URI asked are among the parameters |
| Erc721.IndexRejectedThoughTaken | src/tokens/erc721.ts:255-275 | A request with an index is rejected by a first signature although a later one would take it |
| Erc721.MintPriority | src/tokens/erc721.ts:255-346 | By name and types: the first of nine methods the contract has decides, with its parameters or its rejection |
| Erc721.TransferIsAsAskedOrRejected | src/tokens/erc721.ts:348-383 | A transfer is rejected for a wrong amount, and otherwise moves the token asked as asked |
| Erc721.TransferPriority | src/tokens/erc721.ts:348-383 | Likewise for transfers: transferWithData, safeTransferFrom with data, safeTransferFrom without |
| Erc721.BurnIsAsAskedOrRejected | src/tokens/erc721.ts:225-253 | A burn is rejected for a wrong amount, and otherwise burns the token asked, of the holder asked where the method names one |
| Erc721.BurnPriority | src/tokens/erc721.ts:225-253 | Likewise for burns: burnWithData, burn by index alone, burn of a holder |
| Erc721.ApprovalIsAsAsked | src/tokens/erc721.ts:170-223 | With an index one token is approved, to the zero address if withdrawn; without one, all tokens |
| Erc721.ApprovalPriority | src/tokens/erc721.ts:170-223 | Likewise for approvals: those for one token with an index, those for all without; of either, first the one with data |
| Erc721.MintTable | src/tokens/erc721.ts:255-346 | The mint signatures differ in shape |
| Erc721.MintFillsInputs | src/tokens/erc721.ts:255-346 | A mint gets a parameter for every input |
| Erc721.MintCarriesData | src/tokens/erc721.ts:255-346 | Every bytes input of a mint gets the data |
| Erc721.TransferTable | src/tokens/erc721.ts:348-376 | The transfer signatures differ in shape and fill their inputs |
| Erc721.BurnTable | src/tokens/erc721.ts:225-253 | The burn signatures differ in shape and fill their inputs |
| Erc721.ApprovalTable | src/tokens/erc721.ts:170-223 | The approval signatures differ in shape, fill their inputs, and put the data in every bytes input |
| Requests.DataComesBack | src/tokens/erc20.ts:136-246 | The data of a request is decoded again from any bytes parameter of its call |
| RequestReports.DataIsReported | src/tokens/tokens.listener.ts:183 | The data of a request is the data of the report of its log |
| RequestReports.ApprovalReports | src/tokens/tokens.listener.ts:251-311 | The report of an Approval log of a pool: identifier, locator, pool data, subject, operator, flag, signer, data and trimmed name |
| RequestReports.ApprovalForAllReports | src/tokens/tokens.listener.ts:313-357 | The report of an ApprovalForAll log of a pool: the same, with the untrimmed name |
| RequestReports.FungibleApprovalIsReported | src/tokens/tokens.listener.ts:251-311 | A fungible approval is reported as asked: operator, data and flag, up to an allowance of nothing |
| RequestReports.TokenApprovalIsReported | src/tokens/tokens.listener.ts:251-311 | Approval of one token is reported as asked, up to the zero address |
| RequestReports.AllApprovalIsReported | src/tokens/tokens.listener.ts:313-357 | Approval for all tokens is reported as asked |
| RequestReports.FungibleTransferIsReported | src/tokens/tokens.listener.ts:177-249 | A fungible transfer is reported with the parties, amount and data asked |
| RequestReports.FungibleMintIsReported | src/tokens/tokens.listener.ts:177-249 | A fungible mint is reported with the receiver, amount and data asked |
| RequestReports.FungibleBurnIsReported | src/tokens/tokens.listener.ts:177-249 | A fungible burn is reported with the holder, amount and data asked |
| RequestReports.MintIsReported | src/tokens/tokens.listener.ts:177-249 | A non-fungible mint is reported with the receiver, index and data asked |
| RequestReports.TokenTransferIsReported | src/tokens/tokens.listener.ts:177-249 | A non-fungible transfer is reported with the parties, token and data asked |
| RequestReports.TokenBurnIsReported | src/tokens/tokens.listener.ts:177-249 | A non-fungible burn is reported with the token and data asked, and the holder asked where the method names one |
| InterfaceSupport.AbiMapperService.constructor | src/tokens/abimapper.service.ts:64-66 | The cache starts empty and legacy ABIs are off |
| InterfaceSupport.AbiMapperService.SupportsInterface | src/tokens/abimapper.service.ts:207-227 | A cached answer is given without a query; otherwise the outcome is cached, a failure as no support, over whatever other calls did meanwhile |
| InterfaceSupport.AbiMapperService.GetTokenSchema | src/tokens/abimapper.service.ts:73-98 | The schema is asked for interface by interface, newest first, with any other traffic at each await |
| InterfaceSupport.AbiMapperService.GetAbi | src/tokens/abimapper.service.ts:122-141 | The ABI of a schema string, with a second question where two versions share one; a string that is no schema is refused |
| InterfaceSupport.KeyInjective | src/tokens/abimapper.service.ts:208 | The cache key tells addresses and interface ids apart |
| InterfaceSupport.CachedIsLatest | src/tokens/abimapper.service.ts:207-227 | However queries settle and entries are evicted, a cached answer is that of the last query for the same contract and interface |
| InterfaceSupport.StableAnswersAreTrue | src/tokens/abimapper.service.ts:207-227 | With unchanging answers and no failures, asking the cache is asking the chain |
| InterfaceSupport.FailureIsCached | src/tokens/abimapper.service.ts:219-225 | A failed query is remembered as no support |
| InterfaceSupport.AskedOnce | src/tokens/abimapper.service.ts:207-227 | Asking again gives the same answer without a query |
| InterfaceSupport.SchemaIsReported | src/tokens/abimapper.service.ts:73-98 | Whatever other calls do at its awaits, a schema with data is one of an interface the contract reported |
| InterfaceSupport.StableSchemaIsBest | src/tokens/abimapper.service.ts:73-98 | With unchanging answers and no failures, the schema is the best the contract supports |
| InterfaceSupport.QuestionsAsked | src/tokens/abimapper.service.ts:73-98 | The queries made for an unknown token: newest interface first, up to the first that is supported |
| InterfaceSupport.AbiIsReportedIff | src/tokens/abimapper.service.ts:73-141 | An ABI with data is one the contract reported, except exactly when the schema is that of two versions, the last query for version 1b does not confirm it and version 1a was never reported |
| InterfaceSupport.StableAbiIsReported | src/tokens/abimapper.service.ts:122-141 | With unchanging answers and no failures there is no exception |
| InterfaceSupport.StableAbiIsBest | src/tokens/abimapper.service.ts:73-141 | With unchanging answers and no failures, the ABI is that of the newest interface the contract supports, and if it supports none, the one without data of its kind of token, legacy exactly by that kind's own flag |
| InterfaceSupport.DroppedAndFailedTakesWrongAbi | src/tokens/abimapper.service.ts:122-141 | Eviction and a failure together give an ABI that was never reported |
| InterfaceSupport.LateFailureTakesWrongAbi | src/tokens/abimapper.service.ts:207-227 | So does a second query under way for the same interface that settles as failed |
| Migration.MigrationCheck | src/tokens/tokens.service.ts:135-204 | Over the streams and subscriptions given: false exactly when no stream has the old name, or every name subscribed on the first stream of that name parses with an event and every pool has exactly its events, each once; throws exactly when the first bad name has malformed pool data |
| Migration.NamesInAre | src/tokens/tokens.service.ts:143 | The names looked at are those of the subscriptions of the stream, one for each and in their order |
| Migration.ParsesIff | src/tokens/tokens.service.ts:151-158 | A name parses exactly with three parts between colons, or four of which the first is fft and the last decodes |
| Migration.PoolIsCompleteIff | src/tokens/tokens.service.ts:173-202 | A pool is as it is to be with no events but its creation, or with a complete locator and Transfer, Approval and, if it is not fungible, ApprovalForAll, each once |
| Migration.EventsOfAre | src/tokens/tokens.service.ts:149-171 | The events of a pool are those its names say, apart from the creation of pools, one for each name and in their order |
| Migration.FindEvents | src/tokens/tokens.service.ts:149-171 | The first loop groups the events of each locator and pool data, or stops at the first bad name |
| Migration.HasIncomplete | src/tokens/tokens.service.ts:173-202 | The second loop finds out whether some group is not as it is to be |
| Migration.PermutationIff | src/tokens/tokens.service.ts:191-194 | Equal lengths and every expected event included is being a permutation of the expected events |
| Migration.CleanPermutation | src/tokens/tokens.service.ts:135-204 | Whether all is well does not depend on the order of the subscriptions |
| Migration.BadOrderMatters | src/tokens/tokens.service.ts:150-158 | Between a warning and an exception, the order decides |
| Migration.ActivatedIsClean | src/tokens/tokens.service.ts:351-390 | The subscriptions that activating different pools makes need no migration |
| Registry.EventStreamService.GetOrCreateSubscription | src/event-stream/event-stream.service.ts:310-336 | The first subscription of the name on the stream and no change, or, without one, a new one at the end |
| Registry.EventStreamService.DeleteSubscriptionByName | src/event-stream/event-stream.service.ts:338-352 | The first subscription of the name on the stream is taken from its place, and the answer says whether there was one |
| Registry.CallsDoNotDisturb | src/event-stream/event-stream.service.ts:310-352 | Calls about different subscriptions, their steps in any order, leave one of each to be created, one less of each to be deleted, all others as they were, and answer what was there at the start |
| Registry.KeepsUnique | src/event-stream/event-stream.service.ts:310-352 | Calls of any kind, overlapping in any way, keep names unique as long as none takes its list while its subscription is absent and about to be made by another |
| Registry.CountIsCreators | src/event-stream/event-stream.service.ts:310-336 | Overlapping creating calls add to each name one subscription for every call that found none |
| Registry.UniqueIffNoRace | src/event-stream/event-stream.service.ts:310-336 | Names stay unique under overlapping creating calls if and only if none raced so |
| Registry.ApartNeverRace | src/event-stream/event-stream.service.ts:310-352 | Calls about different subscriptions never race |
| Registry.CreationOnlyAdds | src/event-stream/event-stream.service.ts:310-336 | Creating calls remove nothing, and add nothing when all is there |
| Registry.SizeIsTally | src/event-stream/event-stream.service.ts:310-352 | The registry grows by what the calls made less what they deleted |
| Registry.OverlappingCallsDuplicate | src/event-stream/event-stream.service.ts:320-327 | Two calls for the same name that look before either has created make it twice |
| Pools.ActivationAddsMissing | src/tokens/tokens.service.ts:331-390 | Activation keeps every subscription and adds exactly the missing ones of its two or three names, whatever turns its calls take |
| Pools.ActivationIsIdempotent | src/tokens/tokens.service.ts:331-390 | Activating again changes nothing |
| Pools.DeactivationUndoesActivation | src/tokens/tokens.service.ts:403-437 | Deactivation after a first activation leaves as many of every subscription as before |
| Pools.ServedCounts | src/tokens/tokens.service.ts:331-437 | Either operation settles its own names and touches those of no other pool or stream |
| Pools.NamesApart | src/tokens/tokens.service.ts:351-390 | Names of different events and of different pools differ |
| Pools.NoListenersIff | src/tokens/tokens.service.ts:433-436 | The error for no listeners is raised exactly when the stream has none of the names, and then nothing changes |
| Pools.InvalidIff | src/tokens/tokens.service.ts:351-407 | Activation and deactivation refuse a locator as invalid exactly when it is incomplete, and then change nothing |
| Pools.ActivatesIff | src/tokens/tokens.service.ts:351-358 | With a complete locator, activation is refused exactly when its schema is none of five |
| Pools.NamesAre | src/tokens/tokens.service.ts:322-390 | The names of a pool are packed from its locator and Transfer, Approval and, if it is not fungible, ApprovalForAll |
| Pools.OverlappingActivations | src/tokens/tokens.service.ts:331-390 | Overlapping activations, of one pool or many, leave every pool all its subscriptions, one more for each call that found none, and each once if and only if none raced |
| Pools.HistoryKeepsUnique | src/tokens/tokens.service.ts:331-437 | Names stay unique over every history of operations |
| Pools.RegistryTellsLast | src/tokens/tokens.service.ts:331-437 | After every history a pool has each subscription once if it was last activated, and none otherwise |
| Streams.StreamService.CreateOrUpdateStream | src/event-stream/event-stream.service.ts:195-248 | The stream of the old name is purged, and that of the new name updated or created |
| Streams.OneStreamForName | src/event-stream/event-stream.service.ts:195-248 | Then there is one stream of the new name, with the id it had, none of the old name, and every other as it was |
| Streams.AgainIsTheSame | src/event-stream/event-stream.service.ts:195-248 | Doing it again changes nothing |
| RetryLoop.RetryableCall | src/tokens/blockchain.service.ts:132-158 | With a maximum of n, min(k, n) + 1 calls and the k-th outcome, the first that is no failure matched by the condition, or giving up after n + 1; the i-th wait is that of the back-off |
| RetryLoop.EndsIff | src/tokens/blockchain.service.ts:132-158 | The loop ends exactly when it has a maximum or some outcome is not to be retried |
| RetryLoop.NoConditionNoRetry | src/tokens/blockchain.service.ts:112-117 | Without a condition nothing is retried |
| RetryLoop.WaitIsTerm | src/tokens/blockchain.service.ts:120-146 | The i-th wait is the i-th term of the geometric series of initial wait and factor, capped at the limit; without a maximum always the first |
| RetryLoop.WaitsAddUp | src/tokens/blockchain.service.ts:120-146 | The waits of the loop add up to the total that the next rows are about |
| RetryLoop.WaitsGrow | src/tokens/blockchain.service.ts:120-127 | Waits never get shorter and never pass the limit, and without a maximum are all the first one |
| RetryLoop.TotalBounded | src/tokens/blockchain.service.ts:120-127 | The total wait is at most the limit for each retryable failure |
| RetryLoop.TotalIsCapped | src/tokens/blockchain.service.ts:120-127 | The waits are a geometric series up to the first past the limit, and the limit from there on |
| RetryLoop.TotalClosedForm | src/tokens/blockchain.service.ts:120-127 | The total wait in closed form |
| TokensListener.TrimmedName | src/tokens/tokens.listener.ts:108-118 | An event name is found behind a trimmed prefix, not behind one that stays, and without a prefix nothing is trimmed |
| TokensListener.TransferEnds | src/tokens/tokens.listener.ts:177-205 | When a Transfer log is dropped, when the listener throws and when a message is sent |
| TokensListener.ApprovalEnds | src/tokens/tokens.listener.ts:251-281 | The same for Approval logs |
| TokensListener.ApprovalForAllEnds | src/tokens/tokens.listener.ts:313-330 | The same for ApprovalForAll logs |
| TokensListener.EventIdOfPosition | src/tokens/tokens.listener.ts:97-106 | The identifier of a log is that of its position |
| Ledger.OneLog | src/tokens/tokens.listener.ts:177-249 | The report of one log in terms of the pool: dropped from zero to zero, else a mint, burn or transfer with its parties, amount, index, URI, identifier, data, locator and pool data |
| Ledger.BalancesAgree | src/tokens/tokens.listener.ts:177-249 | For every list of logs the messages give each address but zero the balance the logs give it |
| Ledger.SupplyIsSum | src/tokens/tokens.listener.ts:227-248 | Mints less burns are the sum of the balances |
| Ledger.SupplyAgrees | src/tokens/tokens.listener.ts:177-249 | Mints less burns reported are what all addresses hold by the logs |
| Ledger.OwnersAgreeIff | src/tokens/tokens.listener.ts:177-249 | The messages give a token the owner the logs give it, after every log, exactly when no log from the zero address to itself is about a token that has an owner |

## Left out

- HTTP, TLS, authentication, logging, health checks, request ids and the wiring of the services: upstream is an abstract registry and streams of outcomes.
- The ping and pong timers of both websockets, and real time: a missed pong is one of the ways a connection drops.
- Exceptions on sending to a client or to an upstream websocket that is not open: no handler is cut short by one; what cannot be sent is lost.
- The receipts broadcast to all clients, and the reply to a start: they change no state.
- The distribution of `Math.random`: any client of the set may be selected.
- A listener that throws before it returns its promise: the one listener there is an async function.
- The regular expression of the retry condition is an abstract predicate, and the mapping of errors in `wrapError` is not modelled.
- The rounding of floating-point waits: waits are real numbers.
- `getDecimals`, `queryPool`, `createPool` and the report of a new pool: queries passed through.
- The dispatch of a log by its signature in `onEvent`, and of a websocket message by its shape in `handleMessage`.
- `allInvokeMethods`: the same filter over the four tables of a kind of token together.
- The Solidity samples and the JSON ABI files: an ABI is any list of methods.
- The branch of the migration check for an empty list of expected events: neither list is empty.
- White space around the text given to `BigInt`, which JavaScript trims.
- The caching of streams by namespace, and factory subscriptions, which use the same calls as pools do.
- Swagger, DTO validation and REST controllers.
- Pools.ServedCounts: is stated for valid locators without a colon, which all packed locators are; a locator with one could not be told apart in a name.
- ProxyPaced.EveryValidAckReachesUpstream: one batch at a time and one namespace per client are sufficient, and not shown to be necessary; ProxyProperties.AckRule and ProxyWire.AcksOnTheWire are exact for every run.
- Ledger.OneLog: leaves out the parts of a log that a report only copies, such as hash, address and timestamp.
- Ledger.BalancesAgree: is about logs whose transaction index is a number, as are Ledger.SupplyAgrees and Ledger.OwnersAgreeIff; on any other the listener throws and nothing is reported.
- RequestReports.DataIsReported: takes the bytes argument of a call to be the one the connector calls `data`.
