# Verified model of the order book, event streams and account lists of drift-rs

The project models four parts of the SDK and proves what they are for.

**The decentralised limit order book** (`Orders`, `Nodes`, `OrderLists`, `Books`, `Tables`, `Runs`, `Builds`,
`Queries`, `Matching`, `Outers`, `Trades`, `WriteBacks`, `Sessions`, `Dlobs`, `Passes`, `Merging`). A book has a map of markets per kind, each market five order
lists, each list two keyed heaps and an index of signatures. `OrderLists.Orderlist` and `Dlobs.Dlob` are the mutable
objects with the source's loops; each method is proved against a function or relation on book contents. `Tables`
gives those contents a meaning: a table with one entry per order saying which list holds it. `Represents` ties a book
to its table, in spite of the two kinds of leftovers the source keeps (stale signatures in the taking index after a
promotion, and copies of other markets' nodes in taking heaps, caused by accumulators that are shared by all markets).
Every operation is matched by a simple step on the table, so every read of a reachable book is a statement about
orders and their classification. `Runs` follows inserts, promotions and single fills from any book it can describe; `Sessions` follows
builds, inserts, promotions and whole matching passes, which write their own fills, so that its statements about amounts assume
something of the inserted and built orders only. `Passes` proves that the two matching loops are such passes, step by step on
the book.

**The event streams** (`Events`). The polled stream is a cursor over a growing ledger, with polls and fetches that may
fail; the log stream is guarded by a bounded first-in-first-out signature cache.

**The account list of an instruction** (`Accounts`): two 64-bit masks and a sorted vector.

**The liquidation price** (`Liquidation`): truncating integer arithmetic.

## When the order book is right

`Runs.Allowed` is the regime of a run. Its conditions are:

- Signatures are not reused.
- An insert may be at any slot, also before the slots of other inserts. Only if its slot lies before the last promotion
  must the order be classified the same at both (`OnTime`); `Runs.InsertTimeIff` shows that this is exactly what keeps
  every order in its place.
- A promotion may be at any slot, but happens only if no taking heap holds a copy of another market's node that is ready
  for promotion. `Tables.PromotionIsExact` shows that this is exactly what a promotion needs, `Runs.RegimesAllow` that it
  always holds in a book that was not promoted since it was built and in a book with at most one market of each kind,
  and `Runs.SecondPromotionLeaks` gives a book with two markets, promoted at slots 5 and 20, in which one market ends up
  quoting the other market's order.
- A fill is written at a slot at which classification names the list that holds the order.

Reads are exact after a promotion at a slot no earlier than any insert (`Runs.EndsPromoted`, `Sessions.UpToDate`).

## Facts about the code that the statements follow

- A promoted node keeps its taking type and therefore its slot as heap key (`src/dlob/dlob.rs:140-142`); quotes are
  correct because they are sorted again by price.
- In both matching loops the outer order is the copy read at the start of the pass, and each of its fills is written
  from that copy; only the quotes are read again. A quote therefore grows by exactly what is matched against it, but
  an outer order keeps its last match alone (`Outers.PassOuterFill`). An ask of size 10 against two crossing bids of
  size 6 is matched for 12 and records 6 (`Outers.MatchedTooOften`). What is matched for an outer order is what its
  fill grows by if and only if all quotes it meets before the last one it is matched with are exhausted
  (`Outers.OuterConservedIff`, with the test `FilledOnce` on the quotes as read; `Outers.ConservedFromStart` has a
  test on the book before the pass).
- `determine_maker_and_taker` documents its first component as the maker. A post-only order is always the second one.
- The auction formula divides only the product before it (`src/math/auction.rs:51-58`); it is not linear
  interpolation. `Orders.AuctionIsOffLine` says how far off it is at every slot.
- A market index of 64 or more shares a mask bit with a smaller one, and the first mention wins: with a writable spot
  market 64 the account of the quote market is missing (`Accounts.QuoteMarketLost`). The shift is modelled as it
  behaves without overflow checks, modulo 64. With overflow checks it panics if the index modulo 256 is 64 or more,
  because the index is cut to eight bits first (`src/lib.rs:1628`); index 256 still shares the bit of index 0.
- The sort comparators never answer "equal". The model takes a sort to return some ordered permutation.

## Reading the model

Hash maps are maps, and an iteration over one visits its keys in an arbitrary order; where the result depends on that
order the method returns it as a ghost. The keyed heap is a map whose `pop` returns a key that no other key beats.
Members that come in bid and ask twins in the source are one member with a `side` parameter. A key formatted as text
is modelled as the pair it is formatted from; `Nodes.TextInjective` justifies it. `is_limit_order`,
`must_be_triggered` and `triggered` belong to the drift program crate and are modelled as the evident tests on order
type and trigger condition. Integers are unbounded; slots, prices and amounts are assumed to stay inside the source's
widths. Where the source panics on an order without a price, the model asks for priced quotes or promises no order.

## Model

| member | source | states |
|---|---|---|
| Orders.TypeIsMonotone | src/math/order.rs:43-61 | Time only moves an order from the taking to the resting list; every other list, and resting, is final |
| Orders.FillKeepsType | src/dlob/market.rs:77-113 | List, side and market of an order do not depend on its filled amount |
| Orders.ClassificationIsExact | src/dlob/market.rs:77-113 | Each list, side and market, if and only if the order's own fields say so: trigger state, order type, offset, post-only flag, auction end, trigger price against price |
| Orders.RestsAfterAuction | src/math/order.rs:43-61 | A plain limit order takes up to and including the last slot of its auction and rests from the next one, at once if post-only or without an auction |
| Orders.WrongSideNeverRests | src/math/order.rs:48-58 | A triggered trigger limit order never rests while its trigger price is on the wrong side of its price |
| Orders.LimitPriceIsExact | src/math/order.rs:11-41 | The price of every order at every slot, in its auction and outside it, and when there is none |
| Orders.QuoteOutsideAuction | src/math/order.rs:11-36 | Outside its auction a resting order quotes its own price and a floating one the oracle price plus its offset |
| Orders.FillKeepsPrice | src/math/order.rs:11-36 | Filling an order does not change the price it quotes |
| Orders.AuctionIsOffLine | src/math/auction.rs:37-61 | At every slot of the auction a long quotes more than linear interpolation by its end price, a short less by its start price, each times the share of the auction still to come, but for a quotient rounded toward zero |
| Orders.AuctionValueAtEnd | src/math/auction.rs:37-61 | From its last slot on an auction quotes exactly its end price |
| Orders.AuctionValueAtStart | src/math/auction.rs:37-61 | At its first slot it quotes its start price if and only if the end price (long) or the start price (short) is zero |
| Nodes.CmpIsTotalPreorder | src/dlob/dlob_node.rs:80-98 | Among nodes of one sort direction the heap comparison is a total preorder |
| Nodes.CmpNeedsOneDirection | src/dlob/dlob_node.rs:80-98 | Across directions two nodes can each beat the other |
| Nodes.TextInjective | src/dlob/dlob_node.rs:346-348 | Two signature texts are equal if and only if order id and account are |
| OrderLists.Orderlist.GetBest | src/dlob/order_list.rs:51-71 | Removes a best key; its node is returned only if its signature is indexed, and then the index forgets it |
| OrderLists.DrainingPop | src/dlob/order_list.rs:51-71 | One such read extends a best-first enumeration of the indexed part of the heap |
| OrderLists.Orderlist.Drain | src/dlob/dlob.rs:211-228 | Reading a side to exhaustion ends, and yields exactly the indexed heap nodes, each once, best first |
| OrderLists.BestFirstMeaning | src/dlob/market.rs:28-42 | Best first is smallest key first in ascending lists and largest first in descending ones, equal keys by slot |
| OrderLists.Orderlist.Update | src/dlob/order_list.rs:89-102 | Replaces the order under its signature in the index and in the heap of the given side, and nothing else |
| Books.InsertedKeepsForm | src/dlob/dlob.rs:89-111 | Inserting keeps every heap keyed by signature and uniform in direction |
| Books.UpdatedKeepsForm | src/dlob/order_list.rs:89-102 | Updating keeps every heap keyed and uniform |
| Books.PromotionKeepsForm | src/dlob/dlob.rs:124-189 | A promotion, in any visiting order, keeps every heap keyed and uniform |
| Dlobs.PromoteSide | src/dlob/dlob.rs:138-158 | One heap: ready nodes enter the resting list, the others the accumulator, whatever the iteration order |
| Dlobs.Dlob.UpdateRestingLimitOrdersForKind | src/dlob/dlob.rs:124-173 | Every market ends as its promotion against the accumulators of the markets visited so far |
| Dlobs.Dlob.UpdateRestingLimitOrders | src/dlob/dlob.rs:175-189 | Nothing happens unless the slot is new; otherwise both kinds are promoted and the slot recorded |
| Tables.InsertRepresents | src/dlob/dlob.rs:89-111 | Inserting under a fresh signature adds exactly one entry, in the list, side and market that the order's own fields name |
| Tables.FillRepresents | src/dlob/dlob.rs:753-772 | Writing a fill back reaches the stored order, and only it, when the order sits where classification looks for it |
| Tables.PromotionIsExact | src/dlob/dlob.rs:124-173 | A promotion moves exactly the entries whose auction is over if and only if no taking heap holds a ready copy of another market's node |
| Runs.InsertTimeIff | src/dlob/dlob.rs:89-111 | An insert, at whatever slot, keeps every order where classification puts it up to promotions still to come if and only if it is not at an earlier slot than the last promotion, or its order is classified the same at both |
| Runs.RegimesAllow | src/dlob/dlob.rs:175-189 | A book not promoted since its build, or with one market per kind, always meets that condition |
| Runs.SecondPromotionLeaks | src/dlob/dlob.rs:125-158 | Two markets promoted at two slots: a concrete book where every read of the bids of market 1 returns an order of market 0 |
| Runs.RunInv | src/dlob/dlob.rs:89-189 | After any run of inserts, promotions and fills in the regime, started from any represented book, the book is represented by the table its operations describe |
| Runs.RunRoutes | src/dlob/market.rs:77-113 | After a promotion at S, no earlier than any insert, an order is readable from a heap if and only if its own fields name that market, list and side at S; with one market per kind no other heap holds it at all |
| Runs.LookupIsLatest | src/dlob/dlob.rs:113-122 | After any run, a lookup finds the last order written under that id and account, during the run or before, and nothing if there was none |
| Dlobs.Dlob.GetOrder | src/dlob/dlob.rs:113-122 | Returns the first hit over all lists, perp markets first and resting lists before taking ones, for some order of visiting the markets |
| Queries.DrainLists | src/dlob/dlob.rs:191-231 | Reading a list returns the current node of every entry placed there, once, and no stale or foreign one |
| Queries.RunReads | src/dlob/dlob.rs:191-231 | In every run, after promotion at a slot no earlier than any insert, each list of each market reads as exactly that market's own orders whose fields put them there at the slot, for any number of markets and any visiting order |
| Queries.RunJointReads | src/dlob/dlob.rs:233-352 | In every run, after promotion at a slot no earlier than any insert, quotes (resting and floating) and takers (taking and market) contain every order whose fields put it there exactly once |
| Queries.QuotesByOwnPrice | src/dlob/dlob.rs:233-319 | Quotes whose auction is over are sorted by what the orders say: resting ones by their own price, floating ones by the oracle price plus their offset |
| Dlobs.Dlob.GetBestOrders | src/dlob/dlob.rs:191-231 | Returns the drain of the named list and side without changing the book, nothing for an unknown market: bids created as quotes from the highest price or offset, asks from the lowest, takers from the oldest |
| Dlobs.Dlob.GetRestingLimitOrders | src/dlob/dlob.rs:233-319 | After promotion, the joint drain of resting and floating orders; of two asks the earlier is not dearer, of two bids not cheaper |
| Dlobs.Dlob.GetTakingOrders | src/dlob/dlob.rs:321-353 | After promotion, the joint drain of taking and market orders, never an older order before a newer one |
| Dlobs.Dlob.FindNodesToTrigger | src/dlob/dlob.rs:355-401 | Absent if the exchange is inactive or the market unknown; otherwise exactly the nodes of the two trigger heaps whose trigger price is below, or above, the oracle price |
| Queries.ScanIsExact | src/dlob/dlob.rs:377-398 | The scans find exactly the untriggered orders of the market whose own condition the oracle price meets |
| Dlobs.Dlob.BuildFromUsermap | src/dlob/dlob.rs:53-67 | The book becomes the fold of inserts over some visit of the user map, whatever it held before |
| Builds.BuildIsCanonical | src/dlob/dlob.rs:53-67 | Every iteration order of the user map builds the same book, the canonical one of the user map's table |
| Builds.UserTableExact | src/dlob/dlob.rs:59-63 | That table has one entry per order slot in use, where the order's own fields put it at the build slot, and no other |
| Builds.BuiltInv | src/dlob/dlob.rs:53-67 | A freshly built book satisfies the run invariant |
| Dlobs.Dlob.Size | src/dlob/dlob.rs:69-71 | Returns the two sums of list sizes |
| Builds.BuiltSizes | src/dlob/market.rs:195-219 | After a build the perp and spot sizes are the numbers of perp and of spot order slots in use |
| Builds.SizesCountOrders | src/dlob/market.rs:195-219 | In any book without foreign copies the two sizes count every order once, the perp orders in one and the spot orders in the other |
| Matching.PostOnlyComesSecond | src/dlob/utils.rs:4-27 | No pair if and only if both are post-only; otherwise both orders, and a post-only one always second |
| Matching.PickedExactly | src/dlob/dlob.rs:733-811 | A quote is matched if and only if it is eligible and no eligible quote before it covers the outer order as read |
| Matching.PickedIsEligiblePrefix | src/dlob/dlob.rs:733-811 | The matches are the eligible quotes, in order, up to and including the first that covers |
| Matching.CheaperTailIsIneligible | src/dlob/dlob.rs:736-738 | Stopping at the first bid cheaper than the ask loses no match |
| Matching.RoundIsExact | src/dlob/dlob.rs:709-816 | An eligible quote of the market is matched, or a matched quote at least as good covered the order |
| Matching.PassConserves | src/dlob/dlob.rs:724-812 | Over a pass the fill of an order that no round starts from grows by exactly what was matched against it, at most what it had left |
| Matching.QuotesConserved | src/dlob/dlob.rs:865-950 | The same for every quote of the market at once |
| Matching.PassKeepsFills | src/dlob/dlob.rs:749-780 | No order is ever filled beyond its size, and none ends a pass with less filled than it began with |
| Matching.TwoPassesConserve | src/dlob/dlob.rs:724-950 | Two passes in a row together match no more against a quote than it had left before the first |
| Outers.RoundOuterFill | src/dlob/dlob.rs:749-797 | After its round an outer order records the fill it was read with plus its last match alone |
| Outers.FilledOnceMeaning | src/dlob/dlob.rs:733-811 | The test `FilledOnce` on the quotes as read holds if and only if every match before the last is for nothing |
| Outers.WithinIff | src/dlob/dlob.rs:745-811 | The exact condition under which a round matches no more than the outer order had left |
| Outers.PassOuterFill | src/dlob/dlob.rs:724-812 | The same over a whole pass, beside the total matched for the order |
| Outers.OuterConservedIff | src/dlob/dlob.rs:724-812 | An outer order's fill grows by what was matched for it if and only if its quotes pass `FilledOnce`, and never by more; it is matched for at most what it had left if and only if they do or, with no covering quote, all eligible quotes together have no more |
| Outers.PassGrowth | src/dlob/dlob.rs:724-812 | Over a pass the fill of every order grows by exactly what was matched against it as a quote plus the last match of the round it started |
| Outers.ConservedFromStart | src/dlob/dlob.rs:724-812 | If, before the pass, an order has nothing left or every eligible quote that may be read before another is exhausted, its fill grows by what is matched for it, whatever the earlier rounds do |
| Outers.LoopsAreBlind | src/dlob/dlob.rs:733-745 | Neither loop's eligibility test nor its price looks at filled amounts, as that test requires |
| Outers.MatchedTooOften | src/dlob/dlob.rs:745-811 | A concrete pass over three orders matches an ask of size 10 for 12 and records 6 |
| Trades.RestingIsMayTrade | src/dlob/dlob.rs:733-745 | The loop lets an ask and a bid trade if and only if their users differ, the bid is not below the ask and not both are post-only |
| Trades.TakingIsMayTake | src/dlob/dlob.rs:873-885 | The loop lets a taker meet a maker if and only if their users differ, their prices cross, and on a spot market the maker is not behind the fallback price |
| Trades.DeterminedIsRestingFill | src/dlob/utils.rs:4-27 | The node to fill is the post-only one; if there is none, the one whose auction ended first, the ask if both ended at once |
| Trades.PickedIsRound | src/dlob/dlob.rs:733-811 | One outer order is matched with exactly those quotes that may trade with it and are not behind one that has as much left |
| Trades.PassMatches | src/dlob/dlob.rs:724-812 | The same for every round of a pass at once, and there are no other matches |
| Trades.OneIsFull | src/dlob/dlob.rs:742-803 | After a pass, of the two orders of every match one is completely filled |
| WriteBacks.BookMatchedRuns | src/dlob/dlob.rs:749-797 | One match on the book finds both markets and is one match on the table it represents |
| WriteBacks.BookPassRuns | src/dlob/dlob.rs:724-812 | A pass stated on the book alone (reads, matches, write-backs) is that pass on the table it represents |
| Sessions.MoveKeepsSound | src/dlob/dlob.rs:749-926 | Every build, insert, promotion and whole pass keeps the book represented and no order overfilled |
| Sessions.SessionSound | src/dlob/dlob.rs:749-926 | If no order is inserted or built overfilled, every book reachable by builds, inserts, promotions and passes is represented by its table and stores no overfilled order |
| Sessions.SessionReadsWithin | src/dlob/dlob.rs:742-747 | In such a session no subtraction of filled from size in a pass ever underflows |
| Sessions.SessionReads | src/dlob/dlob.rs:191-231 | Once the book is promoted to the latest slot, also after passes, every list reads as the orders classified there |
| Sessions.SessionJointReads | src/dlob/dlob.rs:233-352 | And quotes and takers contain every order so classified exactly once |
| Sessions.SessionLookup | src/dlob/dlob.rs:113-122 | At any time of a session a lookup finds exactly the order of the table, with the fill its passes wrote |
| Sessions.BuiltReads | src/dlob/dlob.rs:53-67 | After a build and a promotion at a slot no earlier, each list reads as the user map's orders so classified, for any number of markets and any visiting order |
| Sessions.BuiltReadsExactly | src/dlob/dlob.rs:53-67 | The same in terms of the user accounts alone: each of their orders whose own fields put it in that market, list and side is read once, and nothing else |
| Sessions.LifeConserves | src/dlob/dlob.rs:749-926 | From any point of a session up to the next build, the fill of every order grows by exactly what later passes match against it as a quote plus the last match of each round started from it, in sum never negative and at most what it had left |
| Sessions.QuoteForLife | src/dlob/dlob.rs:749-926 | An order that no later pass starts from is matched, over all passes, for at most what it had left |
| Passes.ReadQuotes | src/dlob/dlob.rs:728-733 | While a pass runs, a read of one side changes nothing and returns every order that quotes there, asks never dearer and bids never cheaper before another |
| Passes.WriteFills | src/dlob/dlob.rs:749-797 | One match writes both fills, the quote first, each from the copy that was read, and keeps the book represented |
| Passes.MatchRestingAsk | src/dlob/dlob.rs:733-811 | One ask against its bids emits exactly the picked pairs, with the node to fill and the maker as their flags and auctions say, and writes exactly their fills; the pairs are exactly those of two users that meet in price and are not both post-only, up to the first bid that covers the ask |
| Passes.FindCrossingRestingLimitOrders | src/dlob/dlob.rs:709-816 | The asks are all ask quotes of the promoted book, every round reads the complete bid quotes as they then stand, and results and final book are those of the pass: the call is a promotion and one pass of a session; the reported matches are, round by round, exactly the bids of other users that meet the ask in price, not both post-only, up to the first that covers it; bids need prices only if there are asks |
| Passes.MatchTaker | src/dlob/dlob.rs:873-950 | One taker against its makers emits exactly the picked makers and writes exactly their fills; they are exactly the makers of other users that cross its price and are not behind the spot fallback, up to the first that covers it |
| Passes.FindTakingNodesCrossingMakerNodes | src/dlob/dlob.rs:852-954 | The same for taking orders against the quotes of the other side, users, crossing prices and spot fallback written out; prices are needed only where the loop or its sort asks for them |
| Passes.MatchAgainstBids | src/dlob/dlob.rs:473-571 | The matches of the resting pass and then of the taking asks: two passes of one session that together match no more against a bid than it had left before the first |
| Passes.ReadTakers | src/dlob/dlob.rs:543-548 | The takers are all taking and market orders of the promoted book, newest first, none of them a quote |
| Merging.MergeIsExact | src/dlob/utils.rs:29-56 | One entry per signature, with the first node seen and all its makers in order |
| Merging.MergeConservesMakers | src/dlob/utils.rs:29-59 | A merge neither loses nor duplicates a maker |
| Merging.MergeAndDeduplicateNodes | src/dlob/utils.rs:29-59 | The loops produce such a merge of both lists, in some order |
| Events.CacheStep | src/event_subscriber.rs:682-691 | Checked insertion keeps set and queue equal to the last capacity - 1 accepted signatures |
| Events.TxSignatureCache.Insert | src/event_subscriber.rs:682-691 | The new state of the cache, also without the check |
| Events.LogEventStream.ProcessLog | src/event_subscriber.rs:194-218 | A failed or remembered response changes nothing; any other is remembered, and exactly its lines that parse to an event naming the account, or to a missing cancel, are emitted in log order |
| Events.LogEventStream.Run | src/event_subscriber.rs:182-218 | Over any responses, the events emitted are exactly those of the lines of accepted responses that concern the account, each once, in response and then log order |
| Events.BatchLines | src/event_subscriber.rs:210-217 | Emitted events come from exactly the log lines that parse to an event concerning the account, each once, in transaction and then log order |
| Events.AcceptedUnlessRecent | src/event_subscriber.rs:196-208 | A response is accepted if and only if it did not fail and none of the last capacity - 1 accepted ones has its signature |
| Events.NoRepeatInWindow | src/event_subscriber.rs:204-208 | A signature is accepted again only after more than capacity - 1 acceptances |
| Events.AcceptedWereDelivered | src/event_subscriber.rs:194-218 | Only delivered responses are accepted, and never a failed one |
| Events.EveryDeliveryAccepted | src/event_subscriber.rs:194-218 | Every successfully delivered signature is accepted at least once |
| Events.PolledEventStream.PollOnce | src/event_subscriber.rs:301-393 | One poll advances to the first failing fetch, or to the end of the ledger, and not at all if listing fails |
| Events.StreamFn | src/event_subscriber.rs:284-395 | For every pattern of failures over a growing ledger, exactly the transactions after the initial one up to the cursor are processed, once each and in order, and exactly the events of their lines that concern the account are emitted, none from a transaction that failed, has no meta or logs, or decodes without touching the program |
| Events.CleanPollCatchesUp | src/event_subscriber.rs:301-347 | A poll without failures brings the cursor to the end of the ledger |
| Accounts.MaskAfterSet | src/lib.rs:1628-1634 | Setting a market's bit marks exactly the indexes equal to it modulo 64 |
| Accounts.SortedIsUnique | src/types.rs:329-338 | A strictly sorted account list is determined by its elements |
| Accounts.AccountList.IncludeMarket | src/lib.rs:1627-1669 | Adds a market's account and oracle unless its bit is taken, known or not; the list stays strictly sorted and exact |
| Accounts.BuildAccounts | src/lib.rs:1615-1695 | After the unchanged base accounts come oracles, then spot, then perp accounts, each kind by ascending key: exactly the oracle and account of every included market, none signing, writable if and only if listed so |
| Accounts.MentionsAreExact | src/lib.rs:1671-1690 | The mentioned markets are those listed, those of the users' positions in use, and spot market 0; first the writable ones, then the readable ones, last the quote market |
| Accounts.WritableMetas | src/lib.rs:1636-1692 | An appended account is writable if and only if it is that of a market listed as writable |
| Accounts.IncludedIsFirst | src/lib.rs:1627-1634 | A market is included if and only if it is mentioned before every other market with its mask bit |
| Accounts.QuoteMarketLost | src/lib.rs:1627-1690 | A writable spot market whose index is a positive multiple of 64, such as 64, keeps the account of the quote market out of the list |
| Accounts.AllMentionedIncluded | src/lib.rs:1627-1634 | All mentioned markets are included if and only if no two of them share a mask bit |
| Accounts.AllAccountsPresent | src/lib.rs:1623-1690 | The accounts of all mentioned markets are in the list if and only if no two of them share a mask bit |
| Accounts.SmallIndexesNeverCollide | src/lib.rs:1628-1634 | Indexes below 64 never share a bit |
| Accounts.WritableFirst | src/lib.rs:1671-1690 | A market in the list is writable if and only if it was listed writable |
| Accounts.BuildIsCanonical | src/lib.rs:1615-1695 | The list depends only on the sets of mentioned and of writable markets, not on order or repetition |
| Liquidation.DeltaSize | src/math/liquidation.rs:205-236 | Without open orders the delta is the position times one less the margin ratio (long) or minus one less it (short), rounded toward zero |
| Liquidation.OpenOrdersSubtract | src/math/liquidation.rs:218-233 | Open orders subtract the margin of the amount by which they change the position, rounded down; a worst case of no position gives zero |
| Liquidation.DeltaFollowsSide | src/math/liquidation.rs:205-236 | Without open orders the collateral delta has the sign of the position |
| Liquidation.PriceIsThreshold | src/math/liquidation.rs:186-203 | At a price q the scaled free collateral is non-negative if and only if q is not beyond the liquidation price |
| Liquidation.ResidualIsSmall | src/math/liquidation.rs:186-203 | At the liquidation price that collateral is non-negative and below one price step |
| Liquidation.PerpPriceSide | src/math/liquidation.rs:186-236 | A long's price is -1 or at most the oracle price, a short's -1 or at least it |
| Liquidation.PriceIsMonotone | src/math/liquidation.rs:186-203 | More free collateral moves the price away from the oracle price, for a long possibly to -1 |
| Liquidation.NoPriceIff | src/math/liquidation.rs:186-203 | The result is -1 if and only if nothing is free or, for a long, the collateral would not be negative even at a price of -1 |

## Left out

- Dlobs.Dlob.GetRestingLimitOrders: promises the price order only for priced quotes; the source panics on the others.
- Passes.MatchAgainstBids: returns the matched nodes only; the nodes that `find_resting_orders_to_fill` adds for a fallback price are not modelled. They come from reads and change no order.
- Passes.FindCrossingRestingLimitOrders: two map guards overlap in the source, so the real loop may block; the model covers the data effects and claims no progress.
- Liquidation.PriceIsThreshold: does not model 64-bit wrap-around of the product with the quote precision, or of the cast of the free collateral.
- Events.StreamFn: starts from an empty cache, as the constructor of the stream does; a cache shared with another stream is not modelled.
- Regimes outside `Runs.Allowed`, in which promotion mixes markets: only the counterexample and the exact condition are given.
- Orders without uniqueness of id and account: a second insert under a used signature is not modelled.
- `VAMMNode`, the `Above` and `Below` sub-types and the two node flags: nothing in the book produces or reads them.
- `find_nodes_to_fill` as a whole, fallback liquidity, expired orders, `is_order_expired` and `is_fallback_available`: filters over the reads that are modelled.
- `find_expired_orders_to_fill` also reads heaps without the index, so it repeats foreign copies in a book with several promoted markets.
- Parsing of log lines, decoding and conversion of events: an arbitrary function from log line to optional event.
- Bounded channels, sleeps, reconnects, RPC and web sockets: the emitted events are an unbounded sequence.
- The response limit of a real node when signatures are listed: a listing returns everything after the cursor, as the provider interface says.
- Margin, free collateral, spot delta and oracle validity inside the drift crate: parameters of the liquidation price.
- Maps of markets, oracles and users, subscribers, transaction building, signing and address derivation: input and output or plumbing.
