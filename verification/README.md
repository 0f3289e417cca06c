# Bitfinex v2 market-data session, modelled in Dafny

This project models the market-data core of cryptofeed's Bitfinex feed
(`cryptofeed/bitfinex.py`). One session keeps three dicts:

- the channel registry `channel_map`, mapping a channel id to its symbol, its channel name and its handler;
- the books `book`, mapping each pair to `{'bid': {price: {count, amount}}, 'ask': {...}}`;
- the order index `order_map`, mapping an order id to its `{price, amount, side}`. One index is shared by all pairs.

`message_handler` registers channels from subscription confirmations and
routes data lists to the bound handler. There are four handlers:

- `_ticker` forwards bid and ask.
- `_trades` normalises trades. As written it never delivers a trade event: it calls the coroutine `_trade_update` without `await` (see "## Findings"). `Protocol.Handle` and `Feed.Session.MessageHandler` emit the trade events the code evidently intends, from `Normalize.TradeReply`. `Normalize.TradesAsWritten` models the code as written.
- `_book` rebuilds the aggregated book. A snapshot replaces the pair's book. A delta replaces a level or deletes it.
- `_raw_book` rebuilds the order-indexed (R0) book. A snapshot or an insert adds one order to its level. A delete, sent with price 0, looks up the order's recorded price.

Files and modules:

- `types.dfy` (`Types`): decoded messages, books, orders, channels, events and the Python exceptions a handler can raise (`Error`).
- `normalize.dfy` (`Normalize`): side derivation, the ticker and the trade normalisers.
- `levels.dfy` (`Levels`): the book operations as functions. Each fold has an independent reference definition: the last matching row, or the count and sum of matching rows. It also holds the order-index consistency predicate and its preservation lemmas.
- `protocol.dfy` (`Protocol`): the whole session as a function `Handle(state, message)`, plus lemmas about every handler.
- `session.dfy` (`Feed`): class `Session`. Its fields are the three dicts, and its methods update them in place with the source's loops. Each method is proved to produce exactly the state and reply that `Protocol` gives.

Callbacks are replaced by values. A handler returns a `Reply`: the events it would have passed to the callbacks, and the exception that ended it, if any. When a handler raises, the state keeps every change made before the raise, as in Python. Two cases matter:

- A snapshot row that does not unpack leaves the earlier rows applied.
- A raw insert for a pair without a book has already written `order_map`.

Numbers are integers (fixed-point units).

Behaviour of the code that the model keeps:

- A raw delete lowers the level's count and leaves its amount unchanged.
- A raw delete takes its side from the message's amount, not from the index. A delete carrying amount 0 is therefore looked up among the asks. For a recorded bid it raises, and the order stays in the index (`Protocol.RawDeleteZeroAmountFails`).
- A raw snapshot does not clear the order index.
- An aggregated delta with a count below zero also deletes the level.
- An aggregated snapshot stores whatever count a row carries, including 0. So "no level with count 0" holds only when snapshot counts are positive (`Protocol.AggSnapshotKeepsZeroCount`).
- A `book` confirmation without `prec` raises a KeyError. It does not select the aggregated book.
- The book event carries the whole `book` dict of every pair.

## Model

| member | source | states |
|---|---|---|
| Normalize.Classify | cryptofeed/bitfinex.py:86-90 | book side is bid iff the signed amount is > 0; the stored amount is its absolute value, hence >= 0 |
| Normalize.TradeSideOf | cryptofeed/bitfinex.py:50-55 | trade side is SELL iff the amount is < 0; the emitted amount is its absolute value |
| Normalize.ZeroAmountSides | cryptofeed/bitfinex.py:51-54 | a zero amount is an ask in the books but a BUY in the trades |
| Normalize.TickerReply | cryptofeed/bitfinex.py:29-44 | a heartbeat yields nothing and no error; a ten-field tuple yields exactly one ticker event carrying fields one and three as bid and ask; any other payload fails to unpack |
| Normalize.TradeOf | cryptofeed/bitfinex.py:49-57 | a trade tuple becomes an event with the pair, price from field four, side SELL iff the amount is negative, and the absolute amount |
| Normalize.TradeBatchInOrder | cryptofeed/bitfinex.py:59-62 | a trade snapshot yields one event per leading well-formed tuple, in listed order, and fails iff some tuple does not unpack |
| Normalize.TradeBatch | cryptofeed/bitfinex.py:59-62 | the intended trade snapshot emits at most one event per listed tuple (`Normalize.TradeBatchInOrder` states which) |
| Normalize.TradeReply | cryptofeed/bitfinex.py:46-74 | `te` yields the one trade in `msg[2]`; `tu`, `hb` and any other word yield nothing |
| Normalize.TradesAsWritten | cryptofeed/bitfinex.py:59-72 | as written, no trade event is ever emitted; only a `te` without `msg[2]` raises |
| Normalize.TradeCallbackLost | cryptofeed/bitfinex.py:62-66 | for one live sell, the code as written emits nothing where one trade event is intended |
| Normalize.Leading | cryptofeed/bitfinex.py:84-85 | the number of leading rows that unpack into n names: all rows before it do, the row at it does not |
| Levels.AggPut | cryptofeed/bitfinex.py:85-91 | one snapshot row sets the level at its price on its amount's side to {count, abs amount} and leaves the other side as it was |
| Levels.AggFold | cryptofeed/bitfinex.py:82-91 | the aggregated snapshot loop from an empty book stores only non-negative amounts |
| Levels.AggFoldLast | cryptofeed/bitfinex.py:80-91 | an aggregated snapshot has a level at (side, price) iff some row lands there, and it holds the last such row's count and absolute amount (later duplicates overwrite) |
| Levels.Place | cryptofeed/bitfinex.py:153-159 | adding an order to an existing level gives count+1 and amount+a, a missing level is created as {1, a}, and no other level changes |
| Levels.OrderOf | cryptofeed/bitfinex.py:124-132 | the recorded order has the row's price, the absolute value of its amount, and side bid iff the signed amount is > 0 |
| Levels.RawFoldLevels | cryptofeed/bitfinex.py:119-136 | a raw snapshot has a level at (side, price) iff some order lands there; its count is the number of such orders and its amount the sum of their absolute amounts |
| Levels.RawFold | cryptofeed/bitfinex.py:122-135 | the raw snapshot loop from an empty book builds only levels with a count > 0 and an amount >= 0 |
| Levels.RecordAll | cryptofeed/bitfinex.py:132-136 | the raw snapshot's index writes add exactly the snapshot's order ids and drop no entry |
| Levels.RecordAllLast | cryptofeed/bitfinex.py:123-136 | after a raw snapshot every snapshot order id maps to its last row's entry, and every other index entry survives unchanged |
| Levels.RecordAllIdempotent | cryptofeed/bitfinex.py:123-136 | recording the same snapshot rows twice leaves the index as recording them once |
| Levels.Withdraw | cryptofeed/bitfinex.py:147-152 | a delete lowers the level's count by exactly one and keeps its amount; the level disappears iff its count was 1; no other level changes |
| Levels.AggFoldOk | cryptofeed/bitfinex.py:84-91 | every aggregated snapshot level has a count > 0 when the rows' counts are positive |
| Levels.PlaceOk | cryptofeed/bitfinex.py:153-159 | adding a non-negative amount keeps amounts non-negative and counts positive |
| Levels.WithdrawOk | cryptofeed/bitfinex.py:147-152 | a delete keeps amounts non-negative and counts positive |
| Levels.PlaceKeepsConsistent | cryptofeed/bitfinex.py:153-159 | inserting an order whose id the pair does not hold keeps each level's count equal to the number of the pair's indexed orders at its side and price, the id joining the pair's orders |
| Levels.WithdrawKeepsConsistent | cryptofeed/bitfinex.py:147-152 | deleting one of the pair's indexed orders whose message carries its recorded side finds its level and keeps the count consistency |
| Levels.RawSnapshotConsistent | cryptofeed/bitfinex.py:119-136 | a raw snapshot of distinct order ids is count-consistent with the index it leaves, for the snapshot's ids, whatever stale or other-pair entries the uncleared index still holds |
| Levels.ResendBreaksConsistency | cryptofeed/bitfinex.py:154-157 | re-sending a known order id at its price counts it twice (count 2, amount doubled) while the index holds one order |
| Protocol.AggDelta | cryptofeed/bitfinex.py:94-109 | an aggregated delta changes only the pair's book, succeeds iff the pair has a book and the count is > 0 or the level exists, pushes the whole dict on success, and changes nothing when it raises |
| Protocol.AggBookStep | cryptofeed/bitfinex.py:76-114 | `_book` never touches channels, the order index or other pairs' books, and ends with exactly one push of the whole book dict or with an exception and no push |
| Protocol.AggSnapshotLevels | cryptofeed/bitfinex.py:80-91 | a well-formed aggregated snapshot replaces the pair's book by one determined by the rows alone (last row per side and price) and pushes it |
| Protocol.AggSnapshotIdempotent | cryptofeed/bitfinex.py:82-91 | applying the same aggregated snapshot twice gives the same state and reply as once |
| Protocol.AggDeltaUpsert | cryptofeed/bitfinex.py:94-106 | a delta with count > 0 raises and changes nothing when the pair has no book; otherwise it sets the level to exactly {count, abs amount}, replacing rather than merging, and leaves every other level unchanged |
| Protocol.AggDeltaRemove | cryptofeed/bitfinex.py:107-109 | a delta with count <= 0 removes the price key; it raises and changes nothing when the pair has no book or the key is absent |
| Protocol.RawDelta | cryptofeed/bitfinex.py:139-159 | a raw delta changes no other pair's book; an insert succeeds iff the pair has a book; a delete succeeds iff the id is recorded, the pair has a book and the recorded price has a level on the message's side, and a failed delete changes nothing |
| Protocol.RawBookStep | cryptofeed/bitfinex.py:116-164 | `_raw_book` never touches channels or other pairs' books, and ends with exactly one push of the whole book dict or with an exception and no push |
| Protocol.RawSnapshotLevels | cryptofeed/bitfinex.py:119-136 | a well-formed raw snapshot resets the pair's book to per-(side, price) counts and sums of the snapshot orders, records each order from its last row, and keeps unrelated index entries |
| Protocol.RawSnapshotIdempotent | cryptofeed/bitfinex.py:119-136 | applying the same raw snapshot twice gives the same state (book and index) and reply as once |
| Protocol.RawInsertEffect | cryptofeed/bitfinex.py:153-159 | an insert overwrites the order's index entry, then the pair's book becomes `Levels.Place` of it (count+1 and amount+abs amount at that price, or a new {1, abs amount}, every other level unchanged); without a book it raises after the index write |
| Protocol.RawDeleteEffect | cryptofeed/bitfinex.py:147-152 | a delete raises and changes nothing on an unknown order id, a missing book, or a recorded price with no level on the message's side (the order stays indexed); otherwise the pair's book becomes `Levels.Withdraw` of that level (one count less, amount kept, removed at count 0) and the order leaves the index |
| Protocol.RawDeleteZeroAmountFails | cryptofeed/bitfinex.py:141-149 | deleting a recorded bid with amount 0 looks among the asks, raises, and leaves the order in the index |
| Protocol.RawDeleteUsesMessageSide | cryptofeed/bitfinex.py:141-149 | a delete takes its side from the message's amount: a bid order deleted with a negative amount is looked up among the asks and raises |
| Protocol.RawSnapshotKeepsConsistent | cryptofeed/bitfinex.py:119-136 | a raw snapshot of distinct ids succeeds and leaves the pair's book count-consistent with the index for the snapshot's ids |
| Protocol.RawInsertKeepsConsistent | cryptofeed/bitfinex.py:153-159 | an insert of an id the pair does not hold succeeds and keeps the pair's book count-consistent with the index, the id joining the pair's orders |
| Protocol.RawDeleteKeepsConsistent | cryptofeed/bitfinex.py:147-152 | a delete of one of the pair's indexed orders on its recorded side succeeds and keeps the pair's book count-consistent with the index |
| Protocol.Select | cryptofeed/bitfinex.py:176-188 | `ticker` and `trades` select their handlers; `book` with prec `R0` selects the raw book and with any other prec the aggregated one; `book` without prec raises; any other name selects nothing |
| Protocol.Handle | cryptofeed/bitfinex.py:166-191 | a data list on an unregistered id changes nothing and emits nothing; data never changes the registry; a confirmation changes only the registry, and only by registering its id with the selected kind |
| Protocol.ControlRegisters | cryptofeed/bitfinex.py:175-191 | a confirmation with chanId and symbol registers or overwrites chanId -> {symbol, channel, kind}; an unknown channel name registers nothing |
| Protocol.HeartbeatQuiet | cryptofeed/bitfinex.py:110-114 | a heartbeat on any channel leaves the whole state unchanged and yields no ticker or trade event |
| Protocol.BookMessagesPush | cryptofeed/bitfinex.py:110-114 | every message on a book channel, heartbeats and unexpected shapes included, ends with one push of the whole book dict unless it raises |
| Protocol.AggBookStepOk | cryptofeed/bitfinex.py:80-109 | `_book` keeps every level amount >= 0, and keeps counts > 0 when its snapshot rows carry positive counts |
| Protocol.RawBookStepOk | cryptofeed/bitfinex.py:119-159 | `_raw_book` keeps every level amount >= 0 and every count > 0 |
| Protocol.HandleKeepsLevelsOk | cryptofeed/bitfinex.py:76-164 | every message keeps all level amounts >= 0, and keeps all counts > 0 when aggregated snapshots carry positive counts |
| Protocol.AggDeltaOk | cryptofeed/bitfinex.py:94-109 | an aggregated delta keeps amounts non-negative and counts positive |
| Protocol.RawDeltaOk | cryptofeed/bitfinex.py:139-159 | a raw delta keeps amounts non-negative and counts positive |
| Protocol.AggSnapshotKeepsZeroCount | cryptofeed/bitfinex.py:85-91 | an aggregated snapshot row with count 0 is stored as a level with count 0 |
| Protocol.TickerExample | cryptofeed/bitfinex.py:35-44 | a ticker confirmation then a ticker tuple emits the pair with bid 100 and ask 101 |
| Protocol.TradeSnapshotExample | cryptofeed/bitfinex.py:59-62 | a two-trade snapshot yields SELL 25 at 50000 then BUY 10 at 50010, in that order |
| Protocol.AggBookExample | cryptofeed/bitfinex.py:80-109 | snapshot [[100,1,5],[99,1,-3]] gives bid 100 {1,5} and ask 99 {1,3}; delta [100,0,5] removes bid 100 |
| Protocol.RawBookExample | cryptofeed/bitfinex.py:119-152 | two orders at 100 give bid 100 {2,8} and index both; deleting 1001 leaves {1,8} and drops 1001 from the index |
| Protocol.UnknownChannelExample | cryptofeed/bitfinex.py:168-173 | a data list on an unregistered id leaves the state unchanged and emits nothing |
| Feed.Session.constructor | cryptofeed/bitfinex.py:17-19 | a new session has an empty registry, no books and an empty order index |
| Feed.Session.MessageHandler | cryptofeed/bitfinex.py:166-191 | updates the fields in place to exactly the state `Protocol.Handle` gives, and returns its reply |
| Feed.Session.AggregatedBook | cryptofeed/bitfinex.py:76-114 | updates the fields in place to exactly the state `Protocol.AggBookStep` gives, and returns its reply |
| Feed.Session.AggregatedSnapshot | cryptofeed/bitfinex.py:82-91 | the snapshot loop sets the pair's book to the fold of the well-formed leading rows, touches nothing else, and reports whether every row unpacked |
| Feed.Session.RawBook | cryptofeed/bitfinex.py:116-164 | updates the fields in place to exactly the state `Protocol.RawBookStep` gives, and returns its reply |
| Feed.Session.AddToLevel | cryptofeed/bitfinex.py:155-159 | adds one order to the pair's level in place, as `Levels.Place` states, and changes nothing else |
| Feed.Session.PlaceOrder | cryptofeed/bitfinex.py:124-136 | one snapshot row's order joins its level as `Levels.Place` states and is recorded in the index under its id; the registry is untouched |
| Feed.Session.RawSnapshot | cryptofeed/bitfinex.py:122-136 | the snapshot loop resets the pair's book to the raw fold of the leading rows and writes those rows into the order index without clearing it |

## Left out

- JSON decoding (`json.loads`): messages arrive already decoded as a `Message`. Only list and object frames are represented. A data list holding nothing but the channel id is not representable (Python raises an IndexError on `msg[1]`). Neither are tuple elements that are not integers.
- `subscribe`, the websocket, the `Feed` base class, the connection URL and the `book-P-F-L` channel-name split: network I/O outside the session state.
- async/await and the callback dict: events are returned in a `Reply`. The book event is a value copy. In Python the callback receives a live reference to `self.book` that later messages keep mutating, and that aliasing is not modelled.
- `print` diagnostics: logging only. The message is still dropped or pushed as modelled.
- Float prices and amounts: modelled as integers. The additions `amount +=` carry no rounding.
- `Normalize.TickerReply`: when the ticker payload is a ten-character string or a list of ten lists, Python unpacks it into non-numeric bid and ask. The model reports an unpack error instead.
- The handlers' own `self.channel_map[chan_id]['symbol']` lookup is done by the dispatcher, which passes the pair. It cannot fail there, because the dispatcher has just checked the id.
- `Levels.Consistent` relates counts only, not amounts. A raw delete leaves the amount unchanged, so amount consistency does not hold for the code as written.
- `Levels.Consistent` is stated per pair, against the set of that pair's order ids. The code keeps no such set: it has one index for every pair. The set is proof bookkeeping. An order id used by two pairs has one index entry. An insert for one pair then overwrites the other pair's entry, and that pair's consistency is not preserved.
- The constant event fields (`'feed': 'bitfinex'`, the channel name) are implied by the event constructor. The unused locals `channel`, `bid_size` and the like, and the constructor's `pairs`, `channels` and `callbacks`, are not modelled.

## Findings

| source | as written | input that shows it | evidently intended | confidence | as-written member | corrected member |
|---|---|---|---|---|---|---|
| cryptofeed/bitfinex.py:62-66 | `_trade_update(...)` is called without `await`, so the coroutine never runs and no trade callback fires | `[7, "te", [1, 1000, -25, 50000]]` on a registered trades channel | one SELL trade event of amount 25 at price 50000 | high; not executed | Normalize.TradesAsWritten | Normalize.TradeReply |
