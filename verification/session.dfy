/**
 * The `Bitfinex` feed object: its three dicts are fields that the handlers
 * update in place, and every handler is proved to do what module
 * `Protocol` says of it. Callbacks are replaced by the returned `Reply`.
 */
module Feed {
  import opened Types
  import opened Normalize
  import opened Levels
  import opened Protocol

  class Session {
    /** channel id -> {symbol, channel, handler} */
    var channelMap: map<int, Channel>
    /** pair -> {'bid': {...}, 'ask': {...}} */
    var book: map<string, Book>
    /** order id -> {price, amount, side}, shared by every pair */
    var orderMap: map<int, Order>

    function View(): State
      reads this
    {
      State(channelMap, book, orderMap)
    }

    constructor ()
      ensures View() == State(map[], map[], map[])
    {
      channelMap := map[];
      book := map[];
      orderMap := map[];
    }

    /** `message_handler` on an already decoded message. */
    method MessageHandler(m: Message) returns (reply: Reply)
      modifies this
      ensures Outcome(View(), reply) == Handle(old(View()), m)
    {
      match m
      case Data(id, body) =>
        if id !in channelMap {
          reply := Reply([], None);
          return;
        }
        var ch := channelMap[id];
        match ch.kind {
          case TickerKind => reply := TickerReply(ch.symbol, body);
          case TradesKind => reply := TradeReply(ch.symbol, body);
          case AggBookKind => reply := AggregatedBook(ch.symbol, body);
          case RawBookKind => reply := RawBook(ch.symbol, body);
        }
      case Control(id, sym, chan, prec) =>
        reply := Reply([], None);
        if id.None? || sym.None? {
          return;
        }
        if chan.None? {
          reply := Reply([], Some(NoSuchField("channel")));
          return;
        }
        var kind: Kind;
        if chan.value == "ticker" {
          kind := TickerKind;
        } else if chan.value == "trades" {
          kind := TradesKind;
        } else if chan.value == "book" {
          if prec.None? {
            reply := Reply([], Some(NoSuchField("prec")));
            return;
          }
          kind := if prec.value == "R0" then RawBookKind else AggBookKind;
        } else {
          return;
        }
        channelMap := channelMap[id.value := Channel(sym.value, chan.value, kind)];
    }

    /** `_book` for the pair of the channel the message arrived on. */
    method AggregatedBook(pair: string, p: Payload) returns (reply: Reply)
      modifies this
      ensures Outcome(View(), reply) == AggBookStep(old(View()), pair, p)
    {
      match p {
      case Text(_, _) =>
      case Flat(f) =>
        if f == [] {
          return Reply([], Some(NoSuchElement));
        }
        if |f| != 3 {
          return Reply([], Some(BadArity));
        }
        var price, count := f[0], f[1];
        var (side, amount) := Classify(f[2]);
        if pair !in book {
          return Reply([], Some(NoSuchBook(pair)));
        }
        var levels := book[pair].Levels(side);
        if count > 0 {
          levels := levels[price := Level(count, amount)];
        } else {
          if price !in levels {
            return Reply([], Some(NoSuchLevel(side, price)));
          }
          levels := levels - {price};
        }
        book := book[pair := book[pair].With(side, levels)];
      case Nested(rows) =>
        if rows == [] {
          return Reply([], Some(NoSuchElement));
        }
        var ok := AggregatedSnapshot(pair, rows);
        if !ok {
          return Reply([], Some(BadArity));
        }
      }
      reply := Reply([BookEvent(book)], None);
    }

    /**
     * The snapshot loop of `_book`: the pair's book is cleared, then each
     * row sets its level. A row that does not unpack stops the loop there
     * (`ok` is false) with the rows before it applied.
     */
    method AggregatedSnapshot(pair: string, rows: seq<seq<int>>) returns (ok: bool)
      modifies this
      ensures ok <==> Leading(rows, 3) == |rows|
      ensures channelMap == old(channelMap) && orderMap == old(orderMap)
      ensures Triples(rows[..Leading(rows, 3)])
      ensures book == old(book)[pair := AggFold(rows[..Leading(rows, 3)])]
    {
      book := book[pair := EmptyBook];
      var i := 0;
      while i < |rows|
        invariant 0 <= i <= |rows|
        invariant Triples(rows[..i])
        invariant channelMap == old(channelMap) && orderMap == old(orderMap)
        invariant book == old(book)[pair := AggFold(rows[..i])]
      {
        var row := rows[i];
        if |row| != 3 {
          LeadingStops(rows, i);
          return false;
        }
        AggSnapshotStep(old(book), book, pair, rows, i);
        var price, count := row[0], row[1];
        var (side, amount) := Classify(row[2]);
        var levels := book[pair].Levels(side);
        book := book[pair := book[pair].With(side, levels[price := Level(count, amount)])];
        i := i + 1;
      }
      assert rows[..i] == rows;
      return true;
    }

    /** `_raw_book` for the pair of the channel the message arrived on. */
    method RawBook(pair: string, p: Payload) returns (reply: Reply)
      modifies this
      ensures Outcome(View(), reply) == RawBookStep(old(View()), pair, p)
    {
      match p {
      case Text(_, _) =>
      case Flat(f) =>
        if f == [] {
          return Reply([], Some(NoSuchElement));
        }
        if |f| != 3 {
          return Reply([], Some(BadArity));
        }
        var id, price := f[0], f[1];
        var (side, amount) := Classify(f[2]);
        if price == 0 {
          if id !in orderMap {
            return Reply([], Some(NoSuchOrder(id)));
          }
          price := orderMap[id].price;
          if pair !in book {
            return Reply([], Some(NoSuchBook(pair)));
          }
          var levels := book[pair].Levels(side);
          if price !in levels {
            return Reply([], Some(NoSuchLevel(side, price)));
          }
          var count := levels[price].count - 1;
          levels := levels[price := Level(count, levels[price].amount)];
          if count == 0 {
            levels := levels - {price};
          }
          assert book[pair].With(side, levels) == Withdraw(book[pair], side, price);
          book := book[pair := book[pair].With(side, levels)];
          orderMap := orderMap - {id};
        } else {
          orderMap := orderMap[id := Order(price, amount, side)];
          if pair !in book {
            return Reply([], Some(NoSuchBook(pair)));
          }
          AddToLevel(pair, side, price, amount);
        }
      case Nested(rows) =>
        if rows == [] {
          return Reply([], Some(NoSuchElement));
        }
        var ok := RawSnapshot(pair, rows);
        if !ok {
          return Reply([], Some(BadArity));
        }
      }
      reply := Reply([BookEvent(book)], None);
    }

    /**
     * One order of `amount` joins the level at `price` on `side` of the
     * pair's book: `count += 1` and `amount += amount` when the level
     * exists, a new `{1, amount}` level otherwise.
     */
    method AddToLevel(pair: string, side: Side, price: int, amount: int)
      requires pair in book
      modifies this
      ensures book == old(book)[pair := Place(old(book)[pair], side, price, amount)]
      ensures channelMap == old(channelMap) && orderMap == old(orderMap)
    {
      var levels := book[pair].Levels(side);
      if price in levels {
        levels := levels[price := Level(levels[price].count + 1, levels[price].amount + amount)];
      } else {
        levels := levels[price := Level(1, amount)];
      }
      book := book[pair := book[pair].With(side, levels)];
    }

    /**
     * One row `(order_id, price, amount)` of a raw snapshot: the order joins
     * its level and is recorded in the index under its id.
     */
    method PlaceOrder(pair: string, row: seq<int>)
      requires pair in book && |row| == 3
      modifies this
      ensures book == old(book)[pair := Place(old(book)[pair], OrderOf(row).side, row[1], OrderOf(row).amount)]
      ensures orderMap == old(orderMap)[row[0] := OrderOf(row)]
      ensures channelMap == old(channelMap)
    {
      var id, price := row[0], row[1];
      var (side, amount) := Classify(row[2]);
      AddToLevel(pair, side, price, amount);
      orderMap := orderMap[id := Order(price, amount, side)];
    }

    /**
     * The snapshot loop of `_raw_book`: the pair's book is cleared (the
     * order index is not), then each order is added to its level and
     * recorded in the index. A row that does not unpack stops the loop.
     */
    method RawSnapshot(pair: string, rows: seq<seq<int>>) returns (ok: bool)
      modifies this
      ensures ok <==> Leading(rows, 3) == |rows|
      ensures channelMap == old(channelMap)
      ensures Triples(rows[..Leading(rows, 3)])
      ensures book == old(book)[pair := RawFold(rows[..Leading(rows, 3)])]
      ensures orderMap == RecordAll(old(orderMap), rows[..Leading(rows, 3)])
    {
      book := book[pair := EmptyBook];
      var i := 0;
      while i < |rows|
        invariant 0 <= i <= |rows|
        invariant Triples(rows[..i])
        invariant channelMap == old(channelMap)
        invariant book == old(book)[pair := RawFold(rows[..i])]
        invariant orderMap == RecordAll(old(orderMap), rows[..i])
      {
        var row := rows[i];
        if |row| != 3 {
          LeadingStops(rows, i);
          return false;
        }
        RawSnapshotStep(old(book), book, old(orderMap), orderMap, pair, rows, i);
        PlaceOrder(pair, row);
        i := i + 1;
      }
      assert rows[..i] == rows;
      return true;
    }
  }
}
