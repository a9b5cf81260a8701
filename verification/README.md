# A verified model of a price-time-priority exchange

This project models a small Nasdaq-style exchange in Dafny and proves what its parts promise to each other: two order
books that must agree, an engine whose tables must agree with its books, a market-data feed from which a client must be
able to rebuild every book, and the transports in between.

`dafny verify dfyconfig.toml` checks everything.

## How it is built

* **The book, as a value** (`Book`, `BookLemmas`, `BookAnswers`). Each side is one sequence of orders, best price
  first and, at one price, first come first served. `Apply` says what an add, cancel, replace or immediate order does
  to it, what it replies and which events it emits.
* **The event stream as a state machine** (`BookEvents`). `Legal` says which event may come next, `After` what it
  means. Every command emits a legal stream whose replay is the new book. Conservation, priority, the engine's tables,
  the tokens of the clients and the rebuilt books are all proved event by event.
* **The two books as objects.** `ReferenceBook` keeps ordered maps of levels. `OptimisedBook` keeps a price ladder
  with lazy cursors, fallback maps, a pooled arena with linked queues and a free list, and a hash index (`Flat`). Both
  carry the book value as a ghost field `spec`; `Valid()` ties the real fields to it, and every operation is proved to
  do to `spec` exactly what `Apply` says. `Equivalence.Differential` draws the conclusion. `Arena`, `Ladder`,
  `FastSteps`, `FastConsume` and `FastViews` hold the representation lemmas.
* **The engine.** `EngineSpec` is the engine as a function of its commands; its callbacks are a fold over the events a
  book emits, in order. `MatchingEngine.Engine` is the object with real optimised books. `EngineTables`,
  `EngineInvariant`, `EngineTokens`, `EngineReplies`, `EnginePrices`, `EngineGate`, `EngineOrders` and `GateLimit`
  prove what holds after every run.
* **The feed.** `Bytes`, `Itch` and `ItchLayout` are the wire format, `Builder` the client's book, `Rebuild` and
  `MarketFeed` the proof that the client mirrors the engine, `FeedMessages` what the bytes say, `Mold` the packets,
  `FeedPublishing`, `FeedRounds` and `FeedSession` a whole session over a network that loses datagrams. `EndToEnd.Day`
  puts the engine, publisher and client objects together. `SymbolFilter` is the file reader with a symbol filter, and
  `FilterHarm` the exact condition under which it is transparent.
* **Order entry and threads.** `SoupFraming`, `SoupSession`, `SoupAnswers` and `SoupClock` are the TCP framing and the
  session state machine, `SpscRing` the lock-free ring with every load and store as a step of its own, `RunLoops` the
  queues and the loops of the engine and feed threads. `Histogram` is the latency histogram.

A listener is an event log; a socket is a log of datagrams or output bytes; time is an argument.

## Where a plain promise is false

* The minimum-quantity gate adds up 32-bit numbers, so it kills an order that asks for one share although 2^32 are on
  offer, with every order within the gateway's caps (`GateLimit.GateWraps`). `EngineGate.GateIsRight` says exactly when
  its answer is right.
* A MoldUDP64 packet whose count reaches 65535 reads as the end of the session. `Mold.ReadableIff` says that exactly
  the size limits below 131090 bytes rule this out, and `Mold.FrameParses` says for one packet when it parses back.
* A SoupBinTCP packet whose payload has 65535 bytes or more is framed with a wrapped length; `SoupFraming.PacketsBackIff`
  says that a stream parses back exactly if it has no such packet.
* In polling mode the engine looks at the stop flag after a failed pop, so it can leave a command unhandled that was
  pushed before the stop (`RunLoops.SpinCanMiss`). `RunLoops.SpinExact` says exactly on which schedules it does not.
* The top histogram bucket ends at 2^64, which does not fit; `Histogram.BoundIsClose` says that exactly the values below
  31 * 2^59 have a useful upper bound.
* The symbol filter drops the adds of other symbols and lets later messages for them run into nothing. That is not
  transparent if an order of another symbol is entered under a reference that stands in a tracked queue, by an add or by
  a replace (`FilterHarm.ReusedReferenceBreaksFilter`). `FilterHarm.FilterIff` says that it is transparent, now and
  however the stream goes on harmlessly, exactly if no message does this; other reuse of references does no harm.

## Model

| member | source | states |
|---|---|---|
| BookEvents.EventsExplain | src/book/order_book.cpp:49-138 | every command on a well-formed book emits a legal event stream, the replay of the stream is the new book, and the new book is well formed: sorted, uncrossed, one order per id |
| BookEvents.RunExplained | src/book/order_book.cpp:164-194 | the same for every sequence of commands from the empty book |
| BookEvents.TradeStops | src/book/order_book.cpp:16-40 | an incoming order that is not filled leaves nothing on the other side that still crosses its limit |
| BookProperties.FillsAllItCan | src/book/order_book.cpp:16-40 | an incoming order fills the smaller of its size and the total open quantity that crosses its limit |
| BookProperties.GreedyPrefix | src/book/order_book.cpp:16-40 | the k-th execution is against the k-th resting order in priority order, at that order's price, with consecutive match ids, and all but the last consume the resting order completely |
| BookProperties.GreedyRest | src/book/order_book.cpp:16-40 | what is left of the other side is the unexecuted suffix; only the last executed order may remain in part, and only if the incoming order is filled |
| BookProperties.PriceTimePriority | src/book/order_book.cpp:42-138 | after every run, of two orders on a side the one in front has the better price, or the same price and came to rest earlier according to the event log; partial cancels keep their place and replaces go to the back |
| BookProperties.MatchIdsCountUp | src/book/order_book.cpp:18-39 | over every run the executions are numbered 1, 2, 3 and so on |
| BookProperties.StepConserves | src/book/order_book.cpp:49-138 | one command: resting plus accepted shares before equal resting, twice executed, canceled and retired shares after |
| BookProperties.SharesConserved | src/book/order_book.cpp:49-138 | over every run: accepted shares = resting + 2 * executed + canceled + retired by replaces that do not cross |
| BookAnswers.AddAnswered | src/book/order_book.cpp:49-62 | on every well-formed book an add is answered with the first of bad price, bad quantity and duplicate id, and then nothing changes; otherwise with what it executed, the smaller of its size and what crosses its price, and with the rest, which stands under its id at exactly its price, behind everyone there, while no other order of its side changes |
| BookAnswers.CancelAnswered | src/book/order_book.cpp:81-101 | a cancel succeeds exactly if the order rests with more than the shares to keep; it then keeps exactly these, in its place, or is gone; every other order is as it was, and the one event says what was taken |
| BookAnswers.ReplaceAnswered | src/book/order_book.cpp:110-138 | a replace succeeds exactly if the old order rests, the new id is new and price and size are positive; the old order is then gone, and the new one executes the smaller of its size and what crosses its price and stands with the rest on the old side at exactly its price, behind everyone there, whether it crosses or not |
| BookAnswers.ImmediateAnswered | src/book/fast_book.cpp:260-262 | an immediate order is answered with what it executed, the smaller of its size and what crosses its limit; its own side is untouched and no order is new on the book |
| BookAnswers.NeverCrossed | src/book/order_book.cpp:16-138 | after every run bids fall, asks rise, and every bid is below every ask |
| Matching.ConsumeLegal | src/book/order_book.cpp:18-39 | the next execution inside the best level is the next execution of the whole trade and is legal |
| Matching.ConsumeQueue | src/book/order_book.cpp:18-39 | an execution takes from the front of the best price's queue, lowers that level's total by the executed quantity and touches no other price |
| Snapshots.LevelsByPrice | src/book/order_book.cpp:150-162 | walking the prices best first, each with its queue, gives the snapshot of the side |
| Snapshots.SnapshotLines | src/book/order_book.cpp:150-162 | read from top to bottom, the snapshot of a side lists exactly its orders, in their order, each with its price and open quantity |
| ReferenceBook.OrderBook.ConsumeLevel | src/book/order_book.cpp:18-39 | the loop over one level: representation kept, the executions so far and the rest of the trade make up the trade, and it stops because the order is filled or the level is empty |
| ReferenceBook.OrderBook.Match | src/book/order_book.cpp:16-40 | the nested loops compute the greedy trade of the book value: same book, same quantity, same events |
| ReferenceBook.OrderBook.Rest | src/book/order_book.cpp:42-47 | the order joins the back of its level; maps and index keep matching the book value |
| ReferenceBook.OrderBook.Add | src/book/order_book.cpp:49-62 | status, quantities, events and new book are those of the specified add, which `BookAnswers.AddAnswered` spells out, including bad price, bad quantity and duplicate id |
| ReferenceBook.OrderBook.Erase | src/book/order_book.cpp:64-79 | the order leaves its level, the index and the book value; an empty level is dropped |
| ReferenceBook.OrderBook.Cancel | src/book/order_book.cpp:81-101 | full, partial and refused cancels as specified (`BookAnswers.CancelAnswered`), with their events |
| ReferenceBook.OrderBook.CrossesNow | src/book/order_book.cpp:103-108 | true exactly when the price crosses the best order of the other side |
| ReferenceBook.OrderBook.Replace | src/book/order_book.cpp:110-138 | reply, events and new book of the specified replace (`BookAnswers.ReplaceAnswered`): one that crosses is a cancel followed by a trade and the rest of the order; one that does not goes to the back of its new queue; refusals change nothing |
| ReferenceBook.OrderBook.BestPrice | src/book/order_book.cpp:140-148 | the price of the first order of the side, if there is one |
| ReferenceBook.OrderBook.Snapshot | src/book/order_book.cpp:150-162 | the snapshot of the book value: levels best first, orders in queue order |
| Flat.FlatMap.constructor | src/book/flat_map.hpp:16-22 | an empty table, large enough for the expected number of keys under the load bound |
| Flat.FlatMap.Probe | src/book/flat_map.hpp:103-111 | terminates under the load bound, at the key or at the first unused slot after its home |
| Flat.FlatMap.FindSlot | src/book/flat_map.hpp:103-111 | finds exactly the keys of the map, with their values |
| Flat.FlatMap.Find | src/book/flat_map.hpp:26-34 | look-up in the mathematical map |
| Flat.FlatMap.Insert | src/book/flat_map.hpp:37-53 | map update; inserting or overwriting keeps every key reachable, and growth happens only over the load bound |
| Flat.FlatMap.Grow | src/book/flat_map.hpp:113-119 | twice the slots, same map, and none of its own insertions grows again |
| Flat.FlatMap.Erase | src/book/flat_map.hpp:55-77 | map removal: after the backward shift every other key is still reachable from its home without an unused slot in between |
| Ladder.TickOfPrice | src/book/fast_book.cpp:24-31 | the ladder index of a ladder price is the tick it came from |
| Ladder.PriceOfTick | src/book/fast_book.hpp:75-79 | the price at a price's ladder index is that price |
| OptimisedBook.FastBook.constructor | src/book/fast_book.cpp:16-22 | an empty book for every positive tick, band width and expected size |
| OptimisedBook.FastBook.AllocOrder | src/book/fast_book.cpp:49-61 | a slot that no queue uses, taken from the free list or appended to the pool |
| OptimisedBook.FastBook.Unlink | src/book/fast_book.cpp:65-78 | the slot's neighbours are joined and the level's ends moved, nothing else in the pool changes |
| OptimisedBook.FastBook.Rest | src/book/fast_book.cpp:80-107 | the order joins the book value and the whole representation invariant is kept: linked queues, free list, one home per price, index, cursors |
| OptimisedBook.FastBook.RemoveResting | src/book/fast_book.cpp:109-117 | the order leaves queue, pool and index; the representation invariant is kept |
| OptimisedBook.FastBook.LadderBestBid | src/book/fast_book.cpp:119-128 | the scan from the cursor finds the best ladder bid or none, and the cursor it leaves is still an upper bound |
| OptimisedBook.FastBook.LadderBestAsk | src/book/fast_book.cpp:130-140 | the scan from the cursor finds the best ladder ask or none, and the cursor it leaves is still a lower bound |
| OptimisedBook.FastBook.BestPrice | src/book/fast_book.cpp:142-166 | the better of ladder and fallback is the price of the first order of the side |
| OptimisedBook.FastBook.CrossesNow | src/book/fast_book.cpp:168-171 | true exactly when the price crosses the best order of the other side |
| OptimisedBook.FastBook.ConsumeLevel | src/book/fast_book.cpp:173-193 | the loop over one linked queue: the slots freed, events, match ids and wrapped level total follow the trade, and at least one share is filled |
| OptimisedBook.FastBook.Match | src/book/fast_book.cpp:195-244 | matching across ladder and fallback computes the greedy trade of the book value |
| OptimisedBook.FastBook.Add | src/book/fast_book.cpp:246-258 | status, quantities, events and new book are those of the specified add (`BookAnswers.AddAnswered`) |
| OptimisedBook.FastBook.ExecuteIoc | src/book/fast_book.cpp:260-262 | trades with what crosses and rests nothing (`BookAnswers.ImmediateAnswered`) |
| OptimisedBook.FastBook.Matchable | src/book/fast_book.cpp:264-293 | the total open quantity that crosses the limit, modulo 2^32 |
| OptimisedBook.FastBook.Cancel | src/book/fast_book.cpp:295-313 | full, partial and refused cancels as specified (`BookAnswers.CancelAnswered`), with their events |
| OptimisedBook.FastBook.Replace | src/book/fast_book.cpp:315-340 | reply, events and new book of the specified replace (`BookAnswers.ReplaceAnswered`) |
| OptimisedBook.FastBook.Snapshot | src/book/fast_book.cpp:342-369 | the snapshot of the book value, merged from ladder and fallback |
| Equivalence.ObserveReference | src/book/order_book.cpp:49-162 | replies, events and snapshot of the reference book over any run are those of the book value |
| Equivalence.ObserveFast | src/book/fast_book.cpp:246-369 | replies, events and snapshot of the optimised book over any run, immediate orders included, are those of the book value |
| Equivalence.Differential | src/book/fast_book.hpp:1-12 | for every configuration and every run of adds, cancels and replaces both books give the same replies, the same events with the same match ids, and the same snapshot |
| EngineSpec.TokenViewInjective | src/ouch/ouch.hpp:46-50 | tokens with the same view are the same token |
| EngineTables.ExecutedAgrees | src/engine/engine.cpp:224-245 | an execution in the middle of a match: both parties are told, both lose the shares, the tables follow the book, and the aggressor's recorded open quantity is what it has left |
| EngineTables.CanceledAgrees | src/engine/engine.cpp:247-268 | a full or partial cancel keeps tables and books in agreement |
| EngineInvariant.TradeAgrees | src/engine/engine.cpp:145-152 | after a whole trade the tables agree with the books and the aggressor's entry holds its remaining quantity, or is gone when it is filled |
| EngineInvariant.WorkSound | src/engine/engine.cpp:98-165 | gate, immediate and day orders all end with tables and books in agreement |
| EngineInvariant.ReplaceAgrees | src/engine/engine.cpp:176-218 | a crossing or joining replace swaps the old order for the new one in tables and book |
| EngineInvariant.RunSound | src/engine/engine.cpp:88-272 | after every run the orders table holds exactly the resting orders of all books, with symbols, sides and open quantities, and the live tokens are in bijection with it |
| EngineTokens.TokenLifeCycle | src/engine/engine.cpp:98-268 | after every run the responses for each client and token form one life: fresh exactly if the token is unused, live exactly if the table says so, with the same open quantity |
| EngineTokens.BothSidesTold | src/engine/engine.cpp:224-245 | the execution messages sent are exactly two for each published execution, in the order of publication and with its match number: first as adding liquidity to the client and token that the resting order was announced to, then as removing liquidity to those of the incoming order |
| EngineTokens.SharesOfToken | src/engine/engine.cpp:98-268 | a proper life is introduced at most once and its introduced shares are executed, canceled, still open, or retired by a replace |
| EngineTokens.NothingOutsideLife | src/engine/engine.cpp:224-268 | in a proper life no execution or cancel names the token before it is introduced or after it is over |
| EngineTokens.TokensOverRuns | src/engine/engine.cpp:98-268 | for every run, every token and every response: introduced at most once, and once exactly if used; introduced shares are taken plus open ones while the token is live, and taken plus those retired by a replace when it is over; nothing is taken outside its life |
| EngineReplies.EnterAnswered | src/engine/engine.cpp:98-153 | every order is answered first of all: a refused one with the first reason that applies, and nothing else changes; any other with an acceptance that repeats the order under a new reference |
| EngineReplies.ReplaceAnswered | src/engine/engine.cpp:176-218 | a replace changes nothing at all, or is answered first of all with the new order, the replaced token and a new reference, exactly if it names a live order and an unused token with a price and a size |
| EngineReplies.CancelAnswered | src/engine/engine.cpp:167-174 | a cancel leaves the smaller of the open shares and those to keep, takes nothing from any other token, and is answered with the shares it took, if any |
| EnginePrices.RunPriced | src/engine/engine.cpp:88-218 | after every run all resting orders have prices below 2^63 |
| EngineGate.LimitReaches | src/engine/engine.cpp:133-137 | the extreme limit that stands for a market order crosses every resting order, so such an order can trade with the whole other side, and a limit order with what crosses its price |
| EngineGate.KilledIs | src/engine/engine.cpp:139-143 | an order is killed exactly if it has a minimum and the 32-bit sum of what it could trade with is below it |
| EngineGate.KilledUntouched | src/engine/engine.cpp:139-143 | an order that fails the gate leaves every book and the feed as they were and gets one cancel for all its shares |
| EngineGate.WorkedFills | src/engine/engine.cpp:145-152 | the executions that the engine puts on the feed for an order that passes amount to the smaller of its size and what it could trade with: everything for a market order, what crosses its price for any other |
| EngineGate.MinimumQuantity | src/engine/engine.cpp:139-152 | an order that passes the gate executes at least the smaller of its minimum and its size; whenever less than the minimum crosses it does not pass |
| EngineGate.FillOrKill | src/engine/engine.cpp:139-152 | with the minimum equal to the size, all shares execute or none: none if the 32-bit sum of what it could trade with is below the size, all otherwise; and all exactly if enough is there, if and only if that sum does not wrap below the size |
| EngineGate.GateIsRight | src/engine/engine.cpp:139-143 | the gate's answer is right if and only if less than 2^32 shares are there to trade with or the wrapped sum still reaches the minimum |
| EngineGate.GateOverRuns | src/engine/engine.cpp:98-152 | after any run, an order that is not refused is accepted; if the 32-bit sum of what it could trade with is below its minimum it is canceled in full with every book and the feed as they were; otherwise its executions on the feed amount to the smaller of its size and what it could trade with, and to at least the smaller of its minimum and its size |
| EngineOrders.EnterOverRuns | src/engine/engine.cpp:98-153 | after any run, an order that is not refused and passes the gate: a market order executes the smaller of its size and everything on the other side, a limit order the smaller of its size and what crosses its price; the events are its own, on the feed with the command's time and symbol; market orders and orders with time in force 0 rest nothing, and a last message cancels what is left of them; any other order stands with what is left at exactly its price, behind everyone there; no other book changes |
| EngineOrders.ReplaceOverRuns | src/engine/engine.cpp:176-218 | after any run, a replace that is not refused: the old order is gone, the new one executes the smaller of its size and what crosses the new price, and what is left stands on the same side of the same book at exactly the new price, behind everyone there; no other book changes |
| EngineOrders.CancelOverRuns | src/engine/engine.cpp:167-174 | after any run, a cancel for a live token: the order on the book keeps exactly what the client wants to keep, in its place, or is gone, and no other order and no other book changes; a cancel that keeps everything changes nothing |
| GateLimit.AllOffered | src/engine/engine.cpp:98-152 | after any list of day orders to sell at one price, from different clients and within the caps, exactly their total is on offer |
| GateLimit.GateWraps | src/gateway/gateway.cpp:231-239 | 4295 orders of at most 1,000,000 shares put 2^32 shares on offer; an order for a million shares that asks for at least one is then accepted, executes nothing and is canceled in full |
| MatchingEngine.Engine.OnExecuted | src/engine/engine.cpp:224-245 | the callback does to the engine's fields what the specification does to the tables |
| MatchingEngine.Engine.OnCanceled | src/engine/engine.cpp:247-268 | as specified, including the suppressed cancel of a replace |
| MatchingEngine.Engine.BookFor | src/engine/engine.cpp:65-72 | the book of the symbol, created empty on first use |
| MatchingEngine.Engine.HandleEnter | src/engine/engine.cpp:98-153 | the four rejects in order, then accept, gate, immediate or day order, on the real books, as specified; `EngineOrders.EnterOverRuns` says what that amounts to |
| MatchingEngine.Engine.HandleCancel | src/engine/engine.cpp:167-174 | unknown tokens are ignored; otherwise the book cancels and the callbacks follow |
| MatchingEngine.Engine.HandleReplace | src/engine/engine.cpp:176-218 | refusals are silent; otherwise the token is swapped before the book replaces, as specified; `EngineOrders.ReplaceOverRuns` says what that amounts to |
| MatchingEngine.Engine.Process | src/engine/engine.cpp:55-58 | one command changes the whole engine as specified |
| MatchingEngine.RunCommands | src/engine/engine.cpp:55-63 | responses, feed and snapshots of the engine object over any run are the specified ones, and the final tables agree with the books |
| Bytes.NumberPut | src/common/endian.hpp:10-56 | reading a big-endian field back gives the number modulo the width of the field |
| Bytes.NumberFirst | src/common/endian.hpp:10-56 | the first byte of a field is the most significant one |
| Itch.RoundTrip | src/itch/itch.hpp:199-393 | decoding an encoded A, F, E, C, X, D or U message gives the message with every number cut to its field |
| ItchLayout.AddLayout | src/itch/itch.hpp:199-206 | 36 bytes: type 'A', locate, tracking number and time, then reference at 11, side at 19, shares at 20, symbol at 24, price at 32 |
| ItchLayout.MpidLayout | src/itch/itch.hpp:208-213 | 40 bytes: the same under type 'F', and the attribution at 36 |
| ItchLayout.ExecutedLayout | src/itch/itch.hpp:215-220 | 31 bytes of type 'E': reference at 11, shares at 19, match number at 23 |
| ItchLayout.PricedLayout | src/itch/itch.hpp:222-227 | 36 bytes: the same under type 'C', the print flag at 31 and the price at 32 |
| ItchLayout.CancelLayout | src/itch/itch.hpp:229-233 | 23 bytes of type 'X': reference at 11, shares at 19 |
| ItchLayout.DeleteLayout | src/itch/itch.hpp:235-238 | 19 bytes of type 'D': reference at 11 |
| ItchLayout.ReplaceLayout | src/itch/itch.hpp:240-246 | 35 bytes of type 'U': old reference at 11, new reference at 19, shares at 27, price at 31 |
| Builder.ItchBookBuilder.AddOrder | src/client/itch_book.cpp:65-74 | the order is recorded and joins the back of its price |
| Builder.ItchBookBuilder.ReduceOrder | src/client/itch_book.cpp:76-84 | an unknown order is ignored, a used-up one removed, any other shrinks in place |
| Builder.ItchBookBuilder.RemoveOrder | src/client/itch_book.cpp:86-102 | the order leaves the table and its queue; an empty queue is dropped |
| Builder.ItchBookBuilder.OnMessage | src/client/itch_book.cpp:19-63 | each decodable message has its specified effect on the orders and queues; S, R, H and P messages have none |
| Builder.PlainIsEnough | src/client/itch_book.cpp:19-63 | on every stream, attributed orders count as orders, executions at any price as executions, executions as lost shares, and S, R, H and P messages not at all |
| Builder.ItchBookBuilder.OnMoldPacket | src/client/itch_book.cpp:7-17 | a datagram that does not parse changes nothing; any other updates the gap detector and applies its decodable messages in order |
| Builder.ItchBookBuilder.Snapshot | src/client/itch_book.cpp:104-120 | levels best first with orders in queue order, or nothing when a queued reference has no order |
| Rebuild.EventMirrors | src/client/itch_book.cpp:19-102 | whatever legal event a book emits, a client that mirrors all books and applies the event's message mirrors them again: same orders, same queues, same order in them |
| Rebuild.MirrorShows | src/client/itch_book.cpp:104-120 | a client that mirrors the books shows the same snapshot of every symbol |
| EngineTables.EventsFeed | src/engine/engine.cpp:220-272 | the callbacks put every event on the feed, in order |
| MarketFeed.HearEvent | src/feed/feed.cpp:33-79 | decoding and applying the published bytes of an event has the effect of its message; the messages themselves are in `FeedMessages` |
| FeedMessages.ExecutionSays | src/feed/feed.cpp:49-55 | the decoded bytes of an execution name the resting order, the executed shares and the match number, under the symbol's locate code and the event's time |
| FeedMessages.AdditionSays | src/feed/feed.cpp:40-48 | those of an order that comes to rest name its reference, side, shares, symbol and price |
| FeedMessages.CancelSays | src/feed/feed.cpp:56-67 | those of a cancel delete an order that is gone, and otherwise name the order and the shares it lost |
| FeedMessages.ReplaceSays | src/feed/feed.cpp:68-77 | those of a replace name the old order, the new one, its shares and its price |
| FeedMessages.FeedMatchesReports | src/feed/feed.cpp:33-79 | for every run, the executions decoded from the published bytes are, in order and with the same shares and match numbers, the executions that the engine reported to the clients and tokens of the resting orders |
| MarketFeed.HandleTold | src/engine/engine.cpp:98-218 | one command publishes the events of one book, each within its 32- and 64-bit fields, and the client that hears them mirrors all books again |
| MarketFeed.FeedRebuildsBooks | src/feed/feed.cpp:33-79 | for every run with 32-bit prices and quantities, a client that decodes the published bytes shows the engine's book of every symbol |
| Mold.ParsePacket | src/mold/mold.cpp:61-83 | the parsing loop accepts exactly a header with its count of blocks and nothing after it, and returns their payloads |
| Mold.FrameParses | src/mold/mold.cpp:41-83 | a packet parses back to its messages if and only if each is shorter than 65536 bytes and there are fewer than 65535 |
| Mold.EndParses | src/mold/mold.cpp:57-83 | the end-of-session packet parses as such |
| FeedRounds.DatagramLayout | src/mold/mold.cpp:10-21 | a datagram is the session, the number of its first message in eight bytes, the count or 65535 in two bytes, and the blocks |
| FeedRounds.BlockLayout | src/mold/mold.cpp:28-39 | a block is the message's length in two bytes, high byte first, and the message |
| Mold.StreamPacked | src/mold/mold.cpp:23-47 | the packets of any message stream carry it completely and in order, each numbered one more than the messages before it, and only a single message may exceed the size limit |
| Mold.AddPacks | src/mold/mold.cpp:28-39 | adding a message keeps this at any moment of any sequence of adds and flushes |
| Mold.FlushPacks | src/mold/mold.cpp:41-47 | flushing keeps it and leaves no packet open |
| Mold.LimitFails | src/mold/mold.cpp:28-47 | from 131090 bytes on, 65535 empty messages make a packet that does not parse back |
| Mold.ReadableIff | src/mold/mold.cpp:23-83 | all packets of all streams of short messages parse back if and only if the size limit is below 131090 |
| Mold.Packetizer.AddMessage | src/mold/mold.cpp:28-39 | the buffers hold the bytes of the specified packing |
| Mold.Packetizer.Flush | src/mold/mold.cpp:41-47 | the open packet is completed with its count and becomes ready |
| Mold.Packetizer.TakePackets | src/mold/mold.cpp:49-51 | hands over the bytes of the ready packets and forgets them |
| Mold.Packetizer.Heartbeat | src/mold/mold.cpp:53-55 | an empty packet with the next number |
| Mold.Packetizer.EndOfSession | src/mold/mold.cpp:57-59 | the end-of-session packet with the next number |
| Mold.GapDetector.OnPacket | src/mold/mold.cpp:85-93 | reports a gap exactly if the number is ahead of what was expected, and resynchronises |
| FeedPublishing.FeedPublisher.LocateFor | src/feed/feed.cpp:158-164 | symbols keep their number; a new one gets the next, in 16 bits |
| FeedPublishing.FeedPublisher.Publish | src/feed/feed.cpp:134-145 | a batch is encoded, packed, flushed and sent as specified |
| FeedPublishing.FeedPublisher.Run | src/feed/feed.cpp:119-132 | the datagrams of a whole session: batches, heartbeats in idle rounds, the late batch, the end of the session |
| FeedPublishing.HandsOverFeed | src/feed/feed.cpp:134-141 | however the feed is cut into batches, the messages of the rounds are the encoded feed |
| FeedPublishing.SessionHandsOver | src/feed/feed.cpp:119-141 | the same for the whole session, with the batch published after the loop |
| FeedSession.SessionFacts | src/feed/feed.cpp:119-141 | the datagrams of a session are numbered, readable, within the size limit, and carry exactly the messages handed over |
| FeedRounds.RoundSends | src/feed/feed.cpp:119-145 | after any rounds, a round with nothing to send sends exactly one empty packet with the number of the next message; a batch goes out in packets that carry exactly its messages, none of them empty, each so full that the next message did not fit |
| FeedRounds.BatchOnTheWire | src/feed/feed.cpp:119-145 | the same for the batches taken off the queue: an empty one makes one heartbeat, any other the packets of its encoded events |
| FeedSession.ClientInformed | src/mold/mold.cpp:85-93 | whichever datagrams are lost, the client expects the message after the last datagram it saw, reports a gap exactly if a datagram with messages was lost before it, and without a gap has applied all messages up to there |
| FeedSession.NoGapMeansPrefix | src/client/itch_book.cpp:7-17 | at any time a client without a gap holds the books of a prefix of the feed |
| FeedSession.SessionDelivers | src/client/itch_book.cpp:7-17 | for every run, every batching, every loss: a client that saw the end of the session reports a gap if and only if a datagram with messages was lost, and without a gap it shows the engine's book of every symbol |
| EndToEnd.LoopPublishesFeed | src/feed/feed.cpp:119-132 | a feed loop that has ended published exactly the feed, in rounds and a late batch, if the feed is what was pushed before the stop |
| EndToEnd.Receive | src/client/itch_book.cpp:7-17 | the client object over the datagrams that arrive is the specified client, and it is told of the end exactly if the last datagram arrives |
| EndToEnd.Day | src/feed/feed.cpp:119-141 | engine, feed loop on any schedule, publisher object, lossy network and client object together: a client told of the end reports a gap if and only if a datagram with messages was lost, and without a gap its snapshot is the engine's |
| SymbolFilter.FilterKeepsTracked | src/client/itch_file_processor.hpp:34-59 | for every stream in which no message enters an order of another symbol under a reference that stands in a tracked queue, the filtered client shows the same book of every tracked symbol, or both look-ups throw |
| SymbolFilter.FreshStreams | src/client/itch_file_processor.hpp:34-59 | streams that enter orders under free references only are such streams, and no look-up throws |
| SymbolFilter.FilterBoundsMemory | src/client/itch_file_processor.hpp:44-55 | whatever the stream, the filtered client keeps orders of tracked symbols only |
| FilterHarm.HarmIsExact | src/client/itch_file_processor.hpp:44-55 | after harmless messages, a message leaves the filter transparent for every harmless continuation if and only if it is harmless itself |
| FilterHarm.FilterIff | src/client/itch_file_processor.hpp:34-59 | the filter is transparent after every message of a stream if and only if no message of it enters an order of another symbol under a reference that stands in a tracked queue |
| FilterHarm.ReusedReferenceBreaksFilter | src/client/itch_file_processor.hpp:44-55 | a stream of two adds under one reference on which the two snapshots differ |
| SymbolFilter.ProcessRaw | src/client/itch_file_processor.hpp:27-61 | the loop applies the filtered stream of decodable messages up to its cap and counts all, skipped, decoded and filtered messages |
| SoupFraming.PacketsBackIff | src/soup/soup.cpp:37-98 | a stream of framed packets parses back to these packets if and only if every payload is shorter than 65535 bytes |
| SoupFraming.FrameParser.Push | src/soup/soup.cpp:76-78 | the unread bytes grow by the data |
| SoupFraming.FrameParser.NextPacket | src/soup/soup.cpp:80-98 | takes the first complete packet off the unread bytes, whether or not the buffer is compacted |
| SoupFraming.TrimField | src/soup/soup.cpp:28-33 | the two loops drop exactly the leading and trailing spaces |
| SoupFraming.ReadLogin | src/soup/soup.cpp:60-74 | the loop computes the specified decoding, sequence number modulo 2^64 |
| SoupFraming.LoginRoundTrip | src/soup/soup.cpp:15-74 | every encoded login request with a 64-bit sequence number decodes to its fields, cut to their widths and trimmed, and to the same number |
| SoupAnswers.PacketLayout | src/soup/soup.cpp:37-46 | a packet is its length in two bytes, high byte first, its type and its payload |
| SoupAnswers.LoginLayout | src/soup/soup.cpp:48-59 | the login request is user name, password and session, padded with spaces to 6, 10 and 10 bytes, and the sequence number, right-justified in 20 |
| SoupSession.ChunkingIsInvisible | src/soup/soup.cpp:105-139 | callbacks, output bytes and state depend on the concatenated input bytes only, not on chunks or times |
| SoupSession.SessionMeans | src/soup/soup.cpp:105-139 | whatever the chunks, the listener hears the first login, the messages after it and the logout, and nothing else |
| SoupAnswers.LoginAnswered | src/soup/soup.cpp:105-177 | whatever the packets and chunks, the server sends nothing before the first login request; a malformed one is answered with the four bytes of a rejection, any other with an acceptance of 33 bytes that holds the session name, padded, and the next sequence number, right-justified; and no packet is answered after that |
| SoupAnswers.SendsBytes | src/soup/soup.cpp:179-184 | after any run, a sequenced message adds its packet of type 'S' to the output, and the end of the session the three bytes of its packet |
| SoupSession.RunsAreOrderly | src/soup/soup.cpp:105-153 | in every sequence of received bytes, clock ticks and sends: no message before a login or after the close, at most one login, nothing after the end |
| SoupSession.ClosedForGood | src/soup/soup.cpp:105-153 | a closed session stays closed and tells its listener nothing more |
| SoupClock.ClockStep | src/soup/soup.cpp:141-153 | in every run with times that do not decrease, told from the steps alone: the clock closes an open session exactly if no bytes came for 15 seconds, and tells the listener; otherwise it adds the three bytes of a heartbeat exactly if the session is logged in and none was sent for a second; otherwise it changes nothing |
| SoupSession.ServerSession.OnBytes | src/soup/soup.cpp:105-139 | the loop handles the complete packets until none is left or the session closes |
| SoupSession.ServerSession.Tick | src/soup/soup.cpp:141-153 | time-out, then heartbeat, as specified; `SoupClock.ClockStep` says what that means in a run |
| SpscRing.RingIsSafe | src/common/spsc_ring.hpp:20-35 | in every interleaving the popped values are a prefix of the pushed ones, at most N - 1 values are inside, and the producer is never about to write the slot the consumer is about to read |
| SpscRing.RefusalsAreHonest | src/common/spsc_ring.hpp:20-35 | in every interleaving a push is refused exactly when N - 1 values are inside at that moment, and a pop exactly when there are none |
| SpscRing.SpscBuffer.TryPush | src/common/spsc_ring.hpp:20-27 | without interruption: the producer steps of the interleaved ring one after the other; appends unless N - 1 values are inside |
| SpscRing.SpscBuffer.TryPop | src/common/spsc_ring.hpp:29-35 | without interruption: the consumer steps one after the other; takes the first value if there is one |
| RunLoops.MpscQueue.Push | src/common/queue.hpp:19-26 | the queue step of the loops: the value is queued last |
| RunLoops.MpscQueue.Drain | src/common/queue.hpp:28-50 | the drain step of the loops: hands over everything queued, which is the end of everything pushed |
| RunLoops.BlockingDrains | src/engine/engine.cpp:28-35 | in every interleaving commands are handled in push order, and when the engine exits it has handled every command pushed before the stop |
| RunLoops.SpinPrefix | src/engine/engine.cpp:37-47 | in polling mode commands are handled in push order; an engine that has left saw an empty ring and a stop |
| RunLoops.SpinExact | src/engine/engine.cpp:37-47 | on every schedule, an engine that has left has handled everything pushed before the stop if and only if the stop came before its last empty poll or no push was completed between that poll and the stop |
| RunLoops.SpinCanMiss | src/engine/engine.cpp:37-47 | an interleaving in which a command pushed before the stop is left unhandled |
| RunLoops.FeedDrains | src/feed/feed.cpp:119-132 | in every interleaving events are published in push order, and all pushed before the stop are published before the end of the session |
| Histogram.SlotInRange | src/common/histogram.hpp:58-65 | every 64-bit value has one of the 1024 buckets |
| Histogram.SlotMonotone | src/common/histogram.hpp:58-65 | larger values are never in smaller buckets |
| Histogram.BoundIsClose | src/common/histogram.hpp:58-73 | a bucket's upper end is at least the value and at most a sixteenth above it, if and only if the value is below 31 * 2^59 |
| Histogram.LatencyHistogram.Record | src/common/histogram.hpp:16-21 | counts, extremes and every bucket follow the recorded values |
| Histogram.LatencyHistogram.AtRank | src/common/histogram.hpp:28-38 | for every rank from one to the count there is a value of that rank, and the scan returns the upper end of its bucket; below 31 * 2^59 that is at least the value and at most a sixteenth above it |

## Left out

- The OUCH codecs, and the fields of orders and responses that only pass through the engine (display, capacity, firm,
  response timestamps): fixed-offset copies.
- The fields of S, R, H and P messages after the header, the attribution's and the print flag's use, and the raw-file
  reader: no book depends on them; a file is a sequence of messages.
- Sockets, the poller, the gateway's event loop and its order-size cap, the capture writer, the applications, the clock,
  thread pinning and memory locking; the caps appear only in `GateLimit`.
- C++ memory orders: the ring's steps are sequentially consistent.
- The index mask of the ring and of the hash table: for a power of two it is the remainder, which is what the model uses.
- The width of prices and pool indices inside the optimised book: prices are unbounded integers there, pool links have
  no upper bound, and the nil link is -1.
- The client's statistics (message count, last timestamp, last trade, executed shares).
- The double-precision computation of a percentile's rank: the rank is an argument.
- The standard library's ordered maps: walking one best first is the function `BestFirst`, and the lists and vectors that
  the source changes in place are sequence-valued fields.
- The blocking of `wait_drain` and the time-out of `wait_drain_for`: a drain is a step that is possible whenever the wait
  could be over.
- MarketFeed.FeedRebuildsBooks: needs fewer than 2^64 commands, because references have 64 bits on the wire.
- FeedSession.SessionDelivers: needs fewer than 2^64 - 1 messages and a size limit below 131090, because numbers have 64 bits and a count of 65535 means the end of the session.
- Equivalence.Differential: covers adds, cancels and replaces; the reference book has no immediate orders.
