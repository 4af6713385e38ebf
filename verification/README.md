# cht: decoder, encoder and get-peers pursuit, verified

A Dafny model of the hard logic of the `cht` BitTorrent DHT crawler, with proofs. It
covers the hand-written KRPC decoder, the message templates that must agree with it, the
table that ties get-peers replies to questions, the algorithms these use (hop selection,
distance, UTF-8 scanner, rate limiter, routing table) and the receive handler that puts
them together.

`dafny verify dfyconfig.toml` checks everything.

## How the model is built

Code that changes state is a class whose methods do the same writes in the same order
(`Decoder.KRPC`, `Gpm.GPM`, `SpamFilter.CTMap`, `RoutingTable.RT`, `Server.KRPCServer`) or
a method on the buffer or arrays it works on (`Encoder`, `Hops`, `Dkad.ComputeDkad`,
`Utf8.IsValidUtf8`). Each is proved equal to a function on values, and the properties are
lemmas about those functions and about runs of them.

| module | what it holds |
|---|---|
| `Dht`, `Bits` | bytes, ids, contacts, 8/16/32-bit integers; XOR and AND by binary digits |
| `Numeral` | the bencoded number reader and the decimal printer |
| `Krpc` | the events and the six-state machine of the decoder, and the classifier |
| `Grammar` | parse trees, a recursive-descent parser, a fold of the events over a tree |
| `Bounds`, `Evidence`, `Contents`, `Order` | slices and progress; the method mask and its evidence; contents without positions; order of the outer keys |
| `Truncation`, `Acceptance` | messages that do not parse and how they end; which messages are accepted, refused and with what status, and on which the decoder crashes |
| `Readings`, `Delivery` | a message as one list of keys and values, read without the decoder's registers: what it is refused for and what ends up in which field; what reaches the handler |
| `Decoder` | the `KRPC` class: the loop over the receive buffer |
| `Render`, `Msg`, `Encoder`, `RoundTrip` | canonical texts, the templates, the patching methods, decoding what was encoded |
| `Utf8`, `Dkad`, `Hops`, `SpamFilter`, `RoutingTable`, `Gpm` | the kernels and tables |
| `Message`, `Handler`, `Server` | fields as the handler reads them; what one datagram does, as a function and as methods |
| `Crashes`, `Contacts` | which datagrams crash the handler; whom it asks first and what it stores of a sender |
| `Outreach`, `Answers` | whom a reply makes the crawler ping and ask, and what it pays; what goes out for each kind of message, as the receiver reads it |
| `Questions` | the get-peers questions a datagram leads to, which are what is sent and what is registered |
| `Causes` | logs of a history, chains of causes, and elements picked from a list |
| `Pursuit`, `Memory`, `Limits`, `Conversation` | whole histories of datagrams and epochs: the table of pursuits and the provenance of its questions, the routing table and the provenance of its contacts, rate limits; one question and its answer end to end |

Conventions. Bytes are integers below 256. The two bit sets of the decoder are sets of
methods and of keys. A recorded slice is its start in the buffer and the bytes there. A
failing assertion and a read through a null pointer are outcomes (`Aborted`, `Crash`).
Integers are unbounded, with the source's width written out where it matters: 32-bit
arithmetic in the number reader, 8-bit token counts, 8-bit distances, 64-bit wrap-around
in the UTF-8 guards. A little-endian host is assumed for the two-byte token. Random
draws, the outcome of the token search and the verdict on an announced name are inputs of
a datagram, over which every run theorem quantifies. `SID_MASK[3]` is an arbitrary
constant byte: a build with MSG_CLOSE_SID has 0xff there, one without it has 0, and what
is proved holds for either. An id is 20 bytes, its checksum the last four, and ids are
compared by checksum where the code does so.

## Where the code does less than it promises

Each of these comes with the exact condition under which the promise is kept, or for the
table of questions with what the code does instead.

* The UTF-8 scanner is right for lengths 0 and 3 up. For one or two bytes its unsigned
  guards wrap, and it is right if and only if no longer character happens to be completed
  by what lies behind the string (`Utf8.ScannerShort`, with a concrete case in
  `Utf8.OverrunWitness`).
* `get_random_valid_node` finds a contact in every non-empty table if and only if the draw
  is at least 1 and at most `RT_SIZE - 65536`; its second pass never runs, and a draw of 0
  skips the first as well (`RoutingTable.ScanFindsAny`).
* The decoding loop has no error for a message that stops short. It runs off the end into a
  failing assertion exactly when the message is cut between two tokens and no event before
  the cut fails; a message cut inside a number or a string is refused
  (`Truncation.RanOffExact`; `Truncation.HaltExact` for every message that does not parse).
* The key `port` does not become the current key. The port of an announce is never read
  (`Delivery.NoPortIsRead`), and a text under it is read as the value of the key before it,
  such as the id (`Delivery.PortReplacesId`). `Readings.Governing` says which key governs
  each value, and `Delivery.FieldsDelivered` where it ends up.
* `cht/main.cpp:399` says that MSG_CLOSE_SID matches ids to 4 bytes. It is the other way
  round: our id shares exactly four leading bytes with the peer's when the fourth byte of
  the mask is zero, as without it, and otherwise exactly three (`Outreach.OurIdIsNear`).
* The decoder also crashes on some whole messages: when they have an id and a tok and leave
  both a query and a reply possible (the assertion at `cht/krpc.cpp:554`,
  `Crashes.UntypedAborts`), or announce without the text of a token (a null pointer read at
  `cht/krpc.cpp:571`, `Crashes.TokenlessAborts`). There are no other cases
  (`Acceptance.AbortExact`).
* The handler reads an id, info hash or target whose key was seen but whose value was no
  string: a ping with `2:idi1e` is accepted and crashes it (`Crashes.IdlessPingCrashes`).
  `Crashes.HandleCrashExact` says exactly when a datagram crashes the handler; a message
  whose ids, info hashes and targets are all strings never does once it is accepted
  (`Crashes.StringIdsNeverCrash`).
* A pursuit is meant to start at somebody other than the asker. The contact scanned in the
  asker's place is not compared again, so the asker is asked exactly when both have its
  checksum (`Contacts.AskerAskedExact`, `Contacts.OnlyAskerIsAsked`). When nobody is found,
  exactly as `Contacts.NobodyAskedExact` says, a question goes to 0.0.0.0:0 and is
  registered (`Contacts.NobodyIsRegistered`).
* `cht/gpmap.hpp:65` says extraction deletes the entry. `unset_cell` writes only cells that
  are already clear, so nothing is ever released; the model follows the code
  (`Gpm.GPM.UnsetCell`, `Gpm.GPM.ExtractTok`).
* `cht/gpmap.hpp:24-25` promises at most GP_MAX_HOPS chained nodes. A reply to a question
  registered at the hop limit, and no other, is followed up by questions beyond it, which
  the table refuses (`Pursuit.BeyondLimitExact`, `Pursuit.AsksBeyondLimit`). No chain has
  more than GP_MAX_HOPS + 2 questions (`Pursuit.EveryGetPeersIsTraced`).
* `cht/gpmap.hpp:21-22` says contacts at or below the cut-off distance are ignored. Slots
  without a candidate push the first contact, whatever its distance: all hops are above the
  cut-off if and only if the first contact is, or eight contacts are (`Hops.CutoffExact`),
  and a contact is pushed twice if and only if fewer contacts behind the first are above it
  than there are further hops (`Hops.PushesTwiceExact`). With at most eight contacts, as the
  decoder admits, all hops are above the cut-off if and only if the first contact is, and
  one is pushed twice if and only if one behind the first is not (`Hops.CutoffOfFew`,
  `Hops.TwiceOfFew`).
* `dkad` is described as a log distance. Inside one byte it runs backwards
  (`Dkad.DistanceIsInvertedLog`): where two distances differ, they are ordered like the XOR
  metric if and only if the ids share different numbers of leading bytes with the target
  (`Dkad.OrderIsXorOrder`).
* Ping replies store the sender's port in host byte order, the other cases in network order
  (`cht/server.hpp:274`). The stored address is the sender's if and only if the two bytes of
  the port are equal (`Contacts.PingPortExact`); port 6881 becomes 57626
  (`Contacts.PingPortWitness`).

## Model

| member | source | states |
|---|---|---|
| Numeral.AtoiExact | cht/krpc.cpp:32-79 | the reader succeeds with a value and an end position if and only if a digit string worth that value, below UINT32_MAX >> 4, stands there closed by one terminator |
| Numeral.AtoiTooBig | cht/krpc.cpp:49-78 | a numeral at or past the limit is always reported too long, never wrapped |
| Numeral.AtoiTooLong | cht/krpc.cpp:49-78 | digits worth the limit or more are too long whatever follows |
| Numeral.AtoiStops | cht/krpc.cpp:32-79 | below the limit the byte behind the digits decides: a terminator closes the number; the end of the data, a minus sign and any other byte are refused, each with its own error |
| Numeral.AtoiInvertsDecimal | cht/msg.cpp:84-85 | reading back a printed length gives the number, whatever stands around it |
| Krpc.Step | cht/krpc.cpp:105-107 | one iteration strictly advances within the data or stops; the only clean exit is an 'e' where an outer key may start, with the registers as they are |
| Krpc.RejectionIsAnError | cht/krpc.hpp:219-223 | no rejection leaves the status of success, so the caller's single test of the status tells acceptance |
| Grammar.FlatRefinesGrammar | cht/krpc.cpp:81-535 | for every byte string, the flat loop exits cleanly at a position with certain registers if and only if the recursive parser reads a message ending there and folding the events over its tree yields those registers |
| Grammar.RunIPairs | cht/krpc.cpp:126-142 | run from inside a payload dictionary, the loop behaves as parsing its pairs and folding them |
| Grammar.ParsedRun | cht/krpc.cpp:81-535 | on a message that parses, the loop ends as the fold of its events does: cleanly with its registers, or rejecting with the status of the first event that fails |
| Truncation.HaltExact | cht/krpc.cpp:81-535 | a message that does not parse ends with the first event that fails in the beginning that does, or else by running off the end of the data, or with the status of the byte, number or text that must not stand where it breaks off |
| Truncation.RanOffExact | cht/krpc.cpp:532-534 | the loop runs off the end if and only if the data ends where something more was due and no event before fails |
| Bounds.StepKeepsInside | cht/krpc.cpp:206-212 | every iteration keeps every recorded slice inside the part already consumed, showing the bytes there, with the length limits of its field |
| Bounds.RunKeepsInside | cht/krpc.cpp:81-535 | the same at the clean exit of every run |
| Bounds.AcceptedInside | cht/krpc.cpp:436-517 | in an accepted message ids are 20 bytes, contacts exactly 26 per node and at most 8, peers at most 36 and 6 bytes each from the first on, tok and token at most 32, all within the message |
| Bounds.TokenByteInside | cht/krpc.cpp:569-573 | the byte the announce filter reads behind the token pointer lies in the message even for an empty token |
| Bounds.TokenFilterExact | cht/krpc.cpp:569-573 | the announce filter is decided by the text of the token alone: it passes exactly those of two bytes or more that begin with ours, and the stray byte read behind an empty one never passes |
| Bounds.DecodingIgnoresTail | cht/krpc.cpp:126-132 | once a run exits cleanly at a position, replacing everything behind it changes neither verdict nor fields |
| Bounds.TruncatedMessageAborts | cht/krpc.cpp:532-534 | a message cut just before its closing byte runs off the end into the assertion |
| Evidence.StepAgrees | cht/krpc.cpp:226-354 | each iteration keeps the method mask equal to the methods compatible with all keys seen and all values of q and y read so far |
| Evidence.ReachedAgrees | cht/krpc.cpp:365-434 | the same at every point a run reaches, however it ends |
| Evidence.ReachedMonotone | cht/krpc.cpp:231-244 | between any two points of a run keys seen only grow and possible methods only shrink, however the run ends |
| Acceptance.TreeAgrees | cht/krpc.cpp:226-434 | folding the events over a parse tree leaves the method mask that the keys in the tree and its statements about q and y allow |
| Acceptance.VerdictIsPossible | cht/krpc.cpp:603-654 | a method the classifier accepts is in the final mask, although for replies it looks at the keys only |
| Acceptance.AcceptedAgreesWithEvidence | cht/krpc.cpp:537-661 | the method of an accepted message is compatible with every key in its parse tree and every statement there about its type |
| Acceptance.AcceptanceExact | cht/krpc.cpp:537-661 | the decoder accepts a message as a method with certain fields if and only if it parses, no event of its tree fails, folding gives those fields, and the tree shows what the method needs: an unambiguous kind, an id, a tok, the required arguments, for announces a token of ours and for replies the right tok text |
| Acceptance.RejectionExact | cht/krpc.cpp:537-661 | a whole message is refused with a status if and only if it lacks an id, a tok, or what the one query or the reply its evidence leaves needs, and the status is the one that says so |
| Acceptance.UnparsedExact | cht/krpc.cpp:81-535 | decoding a message that does not parse gives the status of its first failing event, or of what stands where it breaks off, or a crash if it just ends |
| Acceptance.AbortExact | cht/krpc.cpp:532-573 | the decoder crashes if and only if the message is an unfinished one none of whose events fails, or is whole, has id and tok and either leaves both a query and a reply possible or announces with no token text |
| Contents.BareFoldOPairs | cht/krpc.cpp:214-522 | folding the events commutes with forgetting where the strings stand |
| Contents.DecodeByContents | cht/krpc.cpp:81-661 | decoding any message that parses depends only on the contents of its parse tree: verdict, status and field contents are the judgement of folding the tree without positions |
| Readings.FoldIsEntries | cht/krpc.cpp:214-522 | folding the events over a parse tree is going through its keys and values as one list |
| Readings.FaultExact | cht/krpc.cpp:214-517 | the events succeed if and only if no entry is at fault: no key contradicts the kind of message shown so far, each text fits the key that governs it, each list is one of six-byte peers; otherwise they end with the status of the first fault |
| Readings.SeenExact | cht/krpc.cpp:214-362 | the keys seen are exactly the keys of the protocol that occur in the message |
| Readings.IdsExact | cht/krpc.cpp:463-482 | nid, info hash and target are the last texts their keys govern |
| Readings.TextsExact | cht/krpc.cpp:365-462 | so are tok and token; the port keeps its first value |
| Readings.NodesExact | cht/krpc.cpp:440-452 | the contacts are the first eight at most of the last text their key governs, counted by 26 bytes |
| Readings.PeersExact | cht/krpc.cpp:500-517 | the peers counted are the items of all lists their key governs, 36 at most, and the first item is kept |
| Readings.NameExact | cht/krpc.cpp:483-492 | while the message can be an announce, the name is the last text of at most 256 bytes its key governs |
| Delivery.FaultsDecide | cht/krpc.cpp:81-535 | a message that parses is refused with the status of its first fault, and is whole if it has none |
| Delivery.KeysDecide | cht/krpc.cpp:214-362 | the keys a whole message shows are those in its text |
| Delivery.FieldsDelivered | cht/krpc.cpp:365-517 | every field of an accepted message is what its text says under the governing keys |
| Delivery.NameDelivered | cht/krpc.cpp:483-492 | so is the name of an accepted announce |
| Delivery.NodesDelivered | cht/krpc.cpp:440-452 | if the last text of contacts of an accepted message is some contacts one behind the other, the handler gets exactly these, the first eight at most |
| Delivery.FnContactsArrive | cht/krpc.cpp:440-452 | a find-node reply with any number of contacts is accepted and delivers the first eight |
| Delivery.GpContactsArrive | cht/krpc.cpp:440-452 | so is a get-peers reply with contacts, a token and a tok of ours |
| Delivery.PortReplacesId | cht/krpc.cpp:294-300 | a ping with a twenty-byte text under port behind its id is accepted with that text as its id |
| Delivery.NoPortIsRead | cht/krpc.cpp:294-300 | the port of an accepted message is always zero |
| Order.Swap | cht/krpc.cpp:214-271 | two adjacent outer pairs with different one-byte keys, not both dictionaries, can be swapped without changing acceptance or contents |
| Order.OuterOrderIrrelevant | cht/krpc.cpp:214-434 | if no event of a message fails, as in every accepted one, every message with the same outer pairs, in any order and layout, gets the same verdict and status, and if accepted the same method and field contents |
| Decoder.KRPC.constructor | cht/krpc.hpp:136-163 | a fresh object has the start status, any method and no fields |
| Decoder.KRPC.Clear | cht/krpc.hpp:193-218 | resets every field, whatever was there |
| Decoder.KRPC.ParseMsg | cht/krpc.hpp:219-223 | leaves the status, method and fields that decoding the received bytes yields, on top of the fields it started from |
| Decoder.KRPC.BdecodeAtoi | cht/krpc.cpp:32-79 | the loop in 32-bit arithmetic computes the reader's result and position; nothing wraps |
| Decoder.KRPC.ReadOKey | cht/krpc.cpp:215-270 | an outer key updates registers or status exactly as its event says |
| Decoder.KRPC.ReadOStr | cht/krpc.cpp:365-433 | an outer string value does the same |
| Decoder.KRPC.ReadIKey | cht/krpc.cpp:273-362 | an inner key does the same, keeping the stale current key where the code does |
| Decoder.KRPC.ReadIStr | cht/krpc.cpp:436-497 | an inner string value records its slice or sets the error |
| Decoder.KRPC.ReadItem | cht/krpc.cpp:500-517 | a list item counts a peer and remembers the first |
| Decoder.KRPC.ReadBracket | cht/krpc.cpp:107-185 | the brackets move between the six states or stop with their error |
| Decoder.KRPC.ReadScalar | cht/krpc.cpp:148-212 | a number or string is consumed whole and dispatched, or stops with its error |
| Decoder.KRPC.Xdecode | cht/krpc.cpp:81-535 | the loop over the buffer leaves the object as decoding says, for every buffer and length up to MAXLEN |
| Decoder.KRPC.Classify | cht/krpc.cpp:537-661 | the classifier writes the status and method of the verdict and leaves the fields alone |
| Render.ParseInvertsRender | cht/krpc.cpp:81-535 | parsing the canonical text of any message tree gives the tree back and ends at its last byte, whatever follows |
| Render.DecodeRendered | cht/krpc.cpp:81-661 | decoding the canonical text of a tree, whatever follows it, gives the judgement of folding the tree: verdict, status and field contents |
| Encoder.MaskInvolution | cht/msg.cpp:95-104 | masking an id twice gives it back |
| Outreach.MaskExact | cht/msg.cpp:95-104 | the masked id is the XOR with the mask byte by byte; it differs from the id in each of the last sixteen bytes, in the fourth if the build says so, and in none of the first three |
| Outreach.OurIdIsNear | cht/msg.hpp:12-16 | our id shares exactly four leading bytes with the peer's if the fourth mask byte is zero, and exactly three otherwise |
| Encoder.WriteSidRaw | cht/msg.cpp:95-99 | the loop XORs the mask into exactly twenty bytes of the buffer |
| Encoder.QGp | cht/msg.cpp:106-115 | the patched template is the canonical text of a get-peers query from the masked id for that hash and token, and a zero byte: 97 bytes |
| Encoder.QFn | cht/msg.cpp:117-124 | likewise for find-node |
| Encoder.QPg | cht/msg.cpp:126-131 | likewise for ping |
| Encoder.CloseRWithTok | cht/msg.cpp:79-93 | closes the inner dictionary, then writes the tok key, the tok with its decimal length and the last byte, behind what was there |
| Encoder.RFn | cht/msg.cpp:133-146 | a find-node reply is the canonical text of its tree and at most 124 bytes long |
| Encoder.RGp | cht/msg.cpp:148-163 | likewise for a get-peers reply, with our token |
| Encoder.RPg | cht/msg.cpp:165-175 | likewise for a ping reply |
| RoundTrip.QPgDecodes | cht/msg.cpp:44-51 | decoding an encoded ping query, whatever follows it, accepts it with the masked id and our tok |
| RoundTrip.QFnDecodes | cht/msg.cpp:14-26 | likewise for find-node, with the target |
| RoundTrip.QGpDecodes | cht/msg.cpp:28-42 | likewise for get-peers, with info hash and token |
| RoundTrip.RPgDecodes | cht/krpc.cpp:641-654 | a ping reply with any tok up to 32 bytes is accepted with exactly its fields if and only if the tok is ours, and otherwise rejected for it |
| RoundTrip.RFnDecodes | cht/krpc.cpp:630-640 | likewise for a find-node reply and its one contact |
| RoundTrip.RGpDecodes | cht/krpc.cpp:606-623 | likewise for a get-peers reply, whose tok must be three bytes ending in ours |
| Utf8.HighBitsIsMask | cht/util.cpp:25-49 | clearing low bits by subtraction is the AND with the scanner's masks |
| Utf8.IsValidUtf8 | cht/util.cpp:19-61 | the scanning loop, with its wrapping guards, computes the scanner function |
| Utf8.ScannerExact | cht/util.cpp:19-61 | a string of length 0 or at least 3 is accepted if and only if it is the encoding of a sequence of Unicode scalar values other than U+FFFE and U+FFFF (section 4 of RFC 3629) |
| Utf8.ReadingUnique | cht/util.cpp:19-61 | two such sequences with the same encoding are equal |
| Utf8.ScannerShort | cht/util.cpp:25-45 | for one or two bytes the scanner is right if and only if no longer character is completed by the bytes behind the string |
| Utf8.OverrunWitness | cht/util.cpp:33-45 | a lone lead byte that is accepted although it is no UTF-8 |
| Dkad.TableIsBitLength | cht/util.cpp:63-75 | every entry of the table is the bit length of its index |
| Dkad.ComputeDkad | cht/util.cpp:78-91 | the loop computes the distance, and its 8-bit result does not wrap |
| Dkad.DistanceIsInvertedLog | cht/util.cpp:77-91 | for different ids the distance is within 0..159, in the same byte bucket as floor(log2(x XOR y)) on the 160-bit values, runs backwards inside it, and differs from it by at most 7 |
| Dkad.MoreSharedIsCloser | cht/util.cpp:82-90 | sharing strictly more leading bytes with a target means being strictly closer, unless both distances are zero |
| Dkad.OrderIsXorOrder | cht/util.cpp:77-91 | where two distances from a target differ, they are ordered like the XOR metric if and only if the ids share different numbers of leading bytes with the target |
| Hops.TopKUnique | cht/gpmap.cpp:82-121 | there is only one slot array that is a stable selection of the eight first candidates |
| Hops.Displace | cht/gpmap.cpp:101-114 | the inner loop inserts one entry before the first farther slot and shifts the rest of both arrays by one |
| Hops.OfferHop | cht/gpmap.cpp:97-115 | one turn of the outer loop computes the distance of a contact and offers it to the slots |
| Hops.SelectHops | cht/gpmap.cpp:97-116 | the outer loop leaves in the two arrays the selection of all contacts |
| Hops.BestSlotsAreTopK | cht/gpmap.cpp:97-116 | after any prefix the arrays hold the first eight candidates above the cut-off by distance and arrival, each with its own distance, padded with 160 and index 0 |
| Hops.FindBestHops | cht/gpmap.cpp:82-121 | the pushed contacts are the selected ones in order |
| Hops.NextHopsAreTopK | cht/gpmap.cpp:118-120 | a list of contacts is the result if and only if it lists the slots of a stable selection, as many as there are contacts and at most eight, none of the selected left out |
| Hops.CutoffExact | cht/gpmap.cpp:85-120 | all hops pursued are above the cut-off if and only if the first contact is or eight contacts are, padding being the first contact |
| Hops.PushesTwiceExact | cht/gpmap.cpp:85-120 | some contact is pushed twice if and only if fewer contacts behind the first are above the cut-off than there are hops behind the first |
| Hops.CutoffOfFew | cht/gpmap.cpp:85-120 | for at most eight contacts all hops are above the cut-off if and only if the first contact is |
| Hops.TwiceOfFew | cht/gpmap.cpp:85-120 | for at most eight contacts one is pushed twice if and only if one behind the first is not above the cut-off |
| Hops.MoreSharedComesFirst | cht/gpmap.cpp:97-120 | a contact above the cut-off that shares strictly more leading bytes with the info hash than a selected one is selected and stands before it |
| SpamFilter.CTMap.Withdraw | cht/spamfilter.cpp:20-36 | succeeds exactly when the key has the price left, then takes it from that key and no other |
| SpamFilter.CTMap.Replenish | cht/spamfilter.cpp:38-54 | the erase-while-iterating loop adds the gain to every stored count and drops those that become full; no 8-bit sum wraps |
| SpamFilter.WithdrawIsDense | cht/spamfilter.cpp:20-36 | with absent meaning full, a withdrawal is subtraction on one key, and no count is stored full |
| SpamFilter.ReplenishIsDense | cht/spamfilter.cpp:38-54 | with absent meaning full, an epoch is addition capped at the capacity on every key |
| SpamFilter.TakenIsCovered | cht/spamfilter.cpp:15-63 | over any run, what is taken from one key is at most the capacity and the gain per epoch |
| SpamFilter.FullPriceIsSpaced | cht/spamfilter.cpp:65-91 | when one withdrawal costs a full bucket, two successful ones from a key have capacity worth of epochs between them |
| SpamFilter.PingsAreSpaced | cht/spamfilter.cpp:85-91 | over any run two successful ping withdrawals for one address are at least 15 epochs apart |
| RoutingTable.RT.InsertContact | cht/rt.cpp:73-104 | overwrites the cell of the id's prefix and no other |
| RoutingTable.RT.DeleteNode | cht/rt.cpp:123-133 | clears the checksum of that cell if it still holds the target's |
| RoutingTable.RT.GetNeighborContact | cht/rt.cpp:135-153 | returns the occupant of the target's cell, or else a scanned contact |
| RoutingTable.RT.GetRandomValidNode | cht/rt.cpp:155-190 | the nested loops return the first contact at or after the draw, and the empty one for a draw of zero |
| RoutingTable.StepRefines | cht/rt.cpp:73-133 | insertion and deletion on the cells are the map operations on two-byte prefixes |
| RoutingTable.RunRefines | cht/rt.cpp:85-133 | over any run the cells are the map of last contacts |
| RoutingTable.NeighborIsOccupant | cht/rt.cpp:148-152 | a lookup under an occupied prefix returns the whole contact last inserted there |
| RoutingTable.RandomNodeIsOccupant | cht/rt.cpp:168-181 | any contact the scan returns is the occupant of the cell of its own prefix |
| RoutingTable.RandomNodeIsFirst | cht/rt.cpp:164-181 | the scan returns the whole occupant of the first occupied cell at or after the draw |
| RoutingTable.EveryOccupantIsDrawn | cht/rt.cpp:164-181 | every contact in the table is the result of some draw |
| RoutingTable.RandomNodeIs | cht/rt.cpp:155-190 | what the scan returns is that occupant, or the empty contact if the draw is zero or there is none |
| RoutingTable.NeighborIs | cht/rt.cpp:135-153 | what a lookup returns is the occupant under the prefix, or else what the scan returns |
| RoutingTable.NeighborIsFirst | cht/rt.cpp:143-181 | a lookup under an empty prefix returns the whole occupant of the first occupied cell at or after the draw |
| RoutingTable.ScanCellIsMod | cht/rt.cpp:168-172 | the index map of the scan is the remainder by 65536 |
| RoutingTable.ScanFindsAny | cht/rt.cpp:164-185 | a draw finds a contact in every non-empty table if and only if it is between 1 and RT_SIZE - 65536 |
| RoutingTable.ScanMisses | cht/rt.cpp:167-185 | for every other draw there is a table with one contact that the scan misses |
| Message.AcceptedShaped | cht/krpc.cpp:440-482 | the handler can read the ids and contacts of any accepted message as records of their size |
| Message.GetPeersReplyShape | cht/gpmap.cpp:67-68 | an accepted get-peers reply has a three-byte tok, as the lookup asserts, and some node or peer |
| Gpm.GPM.SetCell | cht/gpmap.cpp:33-41 | marks one cell as set and keeps its content and all others |
| Gpm.GPM.UnsetCell | cht/gpmap.cpp:43-48 | changes nothing |
| Gpm.GPM.RegisterQGpIhash | cht/gpmap.cpp:162-169 | up to the hop limit writes checksum, hash and hop into the token's cell; beyond it changes nothing |
| Gpm.GPM.Find | cht/gpmap.cpp:67-78 | finds the cell of the reply's token if it is set and holds the checksum of the reply's id; a set cell and no id is a crash |
| Gpm.GPM.ExtractTok | cht/gpmap.cpp:171-188 | yields the cell's hash and hop and the selected contacts, and leaves the table as it was |
| Gpm.AnswersBelongToQuestions | cht/gpmap.cpp:57-78 | over any run of registrations from an empty table, a lookup yields a cell if and only if the latest accepted registration of its token addressed a node with the reply's checksum, and then that registration's hash and hop |
| Server.KRPCServer.PingSweepNodes | cht/server.hpp:301-319 | the loop updates the ping limiter and sends what the sweep says |
| Server.KRPCServer.AskHops | cht/server.hpp:249-268 | the loop updates the limiter and the table and sends what the pursuit says, each question registered one hop further |
| Server.KRPCServer.StartPursuit | cht/server.hpp:146-161 | if a token was drawn, asks the neighbour of the hash, or a scanned contact if the neighbour has the asker's checksum, and registers it at hop 0; otherwise changes and sends nothing |
| Server.KRPCServer.HandleQPg | cht/server.hpp:113-125 | a ping is answered and its sender stored |
| Server.KRPCServer.HandleQFn | cht/server.hpp:127-141 | a find-node query is answered with the neighbour of its target |
| Server.KRPCServer.HandleQGp | cht/server.hpp:143-174 | a get-peers query starts a pursuit if possible and is answered with the same contact |
| Server.KRPCServer.HandleRGp | cht/server.hpp:221-270 | a get-peers reply stores its sender if it has peers, and has its contacts pinged and its hops asked if it answers a question |
| Server.KRPCServer.HandleRPg | cht/server.hpp:272-276 | a ping reply stores its sender, port in host order |
| Server.KRPCServer.HandleRecv | cht/server.hpp:73-283 | one datagram changes all five tables and sends messages exactly as the handler function says, or crashes exactly when it does |
| Outreach.SweepExact | cht/server.hpp:301-319 | a sweep sends exactly the pings that are due, in order, each made out to its contact and sent to its address |
| Outreach.DueExact | cht/spamfilter.cpp:85-91 | due are exactly the contacts whose address has a full bucket and does not occur earlier among them |
| Outreach.PingArrives | cht/msg.cpp:126-131 | each ping decodes at its receiver as a ping from the receiver's own id under the mask |
| Outreach.PingAnswerArrives | cht/msg.cpp:165-175 | the receiver's answer decodes here as an accepted ping reply from the node pinged |
| Outreach.KeyExact | cht/spamfilter.cpp:93-99 | two questions fall under one limit if and only if the checksums of their hashes differ by the same bits as their addresses |
| Outreach.OneAddressKey | cht/spamfilter.cpp:93-99 | for one address: if and only if the checksums of the hashes are equal |
| Outreach.OneHashKey | cht/spamfilter.cpp:93-99 | for one hash: if and only if the addresses are equal |
| Outreach.AskingExact | cht/server.hpp:249-268 | a pursuit asks exactly the hops that are due, those with a full bucket for the hash and no earlier hop at their address, in order, each under the next token drawn, up to the first draw that fails |
| Outreach.OtherHashesDoNotCount | cht/spamfilter.cpp:93-99 | a hop with a full bucket is asked if a token is drawn, whatever was just asked at its address about hashes with other checksums |
| Outreach.SweepTakesExact | cht/spamfilter.cpp:85-91 | after a sweep the bucket of an address is empty if a ping went there and otherwise unchanged |
| Outreach.ChaseTakesExact | cht/server.hpp:249-268 | after a pursuit the buckets of the hops asked, and of the one a draw failed for, are empty and all others unchanged |
| Answers.PingIsAnswered | cht/server.hpp:113-125 | a ping is answered by one message, to its sender, that reads as a reply with the masked sender id and its tok and nothing else |
| Answers.FindNodeIsAnswered | cht/server.hpp:127-141 | a find-node query likewise, with one contact: the occupant under the target's prefix, or else the first at or after the draw |
| Answers.GetPeersIsAnswered | cht/server.hpp:143-174 | a get-peers query likewise, with our token and one contact, the neighbour of the hash or what replaces the asker; if a token was drawn that same contact is first asked about the hash |
| Answers.AnnounceIsAnswered | cht/server.hpp:176-211 | an announce is answered like a ping, unless its name is refused |
| Answers.PingReplyIsSilent | cht/server.hpp:272-276 | a ping reply is answered by nothing |
| Answers.FindNodeReplyPings | cht/server.hpp:213-220 | a find-node reply has exactly those of its contacts pinged that are due |
| Answers.GetPeersReplySends | cht/server.hpp:221-270 | a get-peers reply has them pinged first, and then, if it answers a question, exactly the hops asked that are due |
| Answers.OverlookedChangesNothing | cht/server.hpp:84-96 | datagrams below 45 or from 1024 bytes on, and those over the limit on their sender, change and send nothing |
| Answers.RefusedCostsOne | cht/server.hpp:94-106 | a refused message costs its sender one token and does nothing else |
| Answers.EpochExact | cht/spamfilter.cpp:71-75 | an epoch gives each sender four tokens up to twelve, and each address and each question one up to fifteen |
| Crashes.UntypedAborts | cht/krpc.cpp:554 | a message with an id under an unknown key and a tok, and no sign of its type, trips the assertion of the classifier |
| Crashes.TokenlessAborts | cht/krpc.cpp:569-573 | an announce with info hash and implied port but no token reads through a null pointer |
| Crashes.HandleCrashExact | cht/server.hpp:73-283 | a datagram crashes the handler if and only if it has a decodable length, passes the limiter, and either its decoding crashes or it is accepted with a pointer null that its case reads |
| Crashes.StringIdsNeverCrash | cht/server.hpp:73-283 | an accepted message whose ids, info hashes and targets are strings is handled, whatever the tables hold |
| Crashes.IdlessPingCrashes | cht/server.hpp:113-125 | a ping whose id is a number is accepted and crashes the handler |
| Contacts.AskerAskedExact | cht/server.hpp:150-153 | the first contact asked has the asker's checksum if and only if both the neighbour and the contact scanned in its place have it |
| Contacts.OnlyAskerIsAsked | cht/server.hpp:150-153 | an asker that is the only contact known, under the prefix of the hash, is asked itself |
| Contacts.NobodyAskedExact | cht/server.hpp:146-153 | exactly when the first contact asked is the empty one |
| Contacts.NobodyIsRegistered | cht/server.hpp:146-161 | with an empty table the first question goes to 0.0.0.0:0 and is registered under the zero checksum |
| Contacts.PingPortExact | cht/server.hpp:272-276 | after a ping reply the table holds the sender's address if and only if the two bytes of its port are equal |
| Contacts.PingPortWitness | cht/server.hpp:272-276 | a sender at port 6881 is stored at port 57626 |
| Pursuit.HandleKeepsValid | cht/server.hpp:73-283 | no datagram breaks the invariants of the tables |
| Questions.HandleCarries | cht/server.hpp:143-269 | handling a datagram registers and sends exactly the get-peers questions it leads to, in order |
| Pursuit.QuestionsAreSent | cht/server.hpp:143-269 | over every history the get-peers messages sent are those that put its questions, in order |
| Pursuit.TableIsQuestions | cht/gpmap.cpp:162-169 | over every history the table of pursuits is the outcome of registering the questions asked so far, in order |
| Pursuit.AnswersBelongToAsks | cht/gpmap.cpp:57-78 | over every history a reply is tied to a question if and only if the latest registered question under its token was put to a node with the checksum of its sender |
| Pursuit.EveryQuestionIsTraced | cht/server.hpp:143-269 | over every history from an empty table, each question ends a chain of at most GP_MAX_HOPS + 2 questions about one info hash, one hop apart: the first was asked for a received query for the hash, of the first hop of that moment; each later one because of a later reply that carries the token of the one before, the latest registered under it, and the checksum of the node asked, and offers the addressee among its selected hops |
| Pursuit.EveryGetPeersIsTraced | cht/server.hpp:143-269 | so does each get-peers message sent |
| Pursuit.EveryPursuitIsTraced | cht/server.hpp:143-269 | over every history from an empty table, each set cell holds the latest registered question under its token, which ends such a chain as long as the hop counter says, at most GP_MAX_HOPS replies behind the query |
| Pursuit.BeyondLimitExact | cht/gpmap.hpp:24-28 | over every history a question lies beyond the hop limit if and only if it was asked because of a reply to a question at the limit |
| Pursuit.AsksBeyondLimit | cht/gpmap.cpp:162-165 | a reply to a question at the hop limit leads to a question one hop further that the table does not know |
| Memory.TableIsStored | cht/server.hpp:113-276 | over every history the routing table is what the contacts stored so far, in order, make of the table there was at the start |
| Memory.EveryContactWasHeard | cht/server.hpp:113-276 | over every history from any table, each contact is the last one stored under its prefix, the id of a message that was received and accepted with the address it came from (port reversed for ping replies); or it was there at the start and nothing was stored under its prefix since |
| Limits.SweepPays | cht/server.hpp:301-319 | a sweep takes fifteen tokens from an address for every ping it sends there, and no others |
| Limits.PingsAreLimited | cht/spamfilter.cpp:71-91 | over every history, fifteen times the pings sent to an address is at most fifteen and the epochs elapsed |
| Limits.PingsAreRare | cht/spamfilter.cpp:85-91 | fewer than fifteen epochs leave room for at most one ping to an address, whatever is received |
| Limits.MessagesAreLimited | cht/spamfilter.cpp:65-83 | over every history, at most twelve messages from an address, and four more per epoch elapsed, are looked at |
| Limits.ChasePays | cht/server.hpp:249-268 | asking the hops takes at least fifteen tokens from a key, the address and the hash together, for every question sent under it |
| Limits.FollowUpsAreLimited | cht/spamfilter.cpp:93-99 | over every history, fifteen times the follow-up questions sent under a key is at most fifteen and the epochs elapsed |
| Conversation.QuestionArrives | cht/msg.cpp:106-115 | our get-peers question decodes at the peer as a query from the masked id for that hash, and the reply it builds carries our tok |
| Conversation.AnswerArrives | cht/msg.cpp:148-163 | the peer's reply decodes here as a get-peers reply from the id we addressed, with that tok and its one contact |
| Conversation.ConversationCloses | cht/gpmap.cpp:162-188 | after registering a question, with no later accepted registration of its token, asking, answering and extracting gives back exactly the hash, the hop and the peer's contact |

## Left out

* Sockets, timers, the mmap of the routing file, statistics, logging, CSV output: input and output only.
* `cht/main.cpp`: a second copy of the receive handler; the one in `cht/server.hpp` is modelled.
* The bootstrap loop (`cht/server.hpp:321-335`): a timer that sends one find-node query.
* The pool of send buffers: one buffer is reused, and a message counts as sent when it is written.
* `randint` and the search in `take_tok`: the drawn token is any token, taken or not, or none; that it is vacant is not what the code ensures.
* Clock values (`last_reponse_ms`): they only feed the token search.
* The verdict on an announced name, which may depend on bytes behind it, is an input of the datagram; `ap_implied_port` is never set.
* `validate_addr`, `check_evict` and `adj_quality`: the first only feeds a counter, the others have no effect in the current code.
* `get_tok_hops`, `print`, `get_method_name`: they only feed output.
* `map.rehash`: it changes no entry.
* `ctl_decide_ping`: it always returns true.
* Order.OuterOrderIrrelevant: stated for one-byte outer keys, all different, and one payload dictionary; not with an inner `name` key, whose meaning depends on the keys before it, nor for messages with an event that fails, where the order decides which failure is reported.
* Limits.FollowUpsAreLimited: speaks of the questions sent for replies; the code does not limit the first question of a pursuit.
* Decoder.KRPC.Xdecode: bytes are compared directly where the source calls `memcmp` with the length already known to match.
* Hops.FindBestHops: the contacts come as a sequence of at most 255 records; the decoder admits at most 8.
