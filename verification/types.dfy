/**
 * Values exchanged by a Bitfinex v2 market-data session: decoded inbound
 * messages, the per-pair books, the order index, the channel registry and
 * the normalised events handed to the callbacks.
 *
 * Prices, amounts, counts and identifiers are JSON numbers on the wire; they
 * are modelled as integers (fixed-point units), so no rounding is modelled.
 */
module Types {

  datatype Option<+T> = None | Some(value: T)

  /** Side of a book level; Bitfinex encodes it in the sign of an amount. */
  datatype Side = Bid | Ask

  /** Side of an executed trade. */
  datatype TradeSide = Buy | Sell

  /** One price level: `{'count': ..., 'amount': ...}`. */
  datatype Level = Level(count: int, amount: int)

  /** `{'bid': {price: level}, 'ask': {price: level}}` for one pair. */
  datatype Book = Book(bid: map<int, Level>, ask: map<int, Level>)
  {
    /** `book[side]` */
    function Levels(s: Side): map<int, Level>
    {
      if s == Bid then bid else ask
    }

    /** The book with `book[side]` replaced by `m`. */
    function With(s: Side, m: map<int, Level>): (r: Book)
      ensures r.Levels(s) == m
      ensures r.Levels(Other(s)) == Levels(Other(s))
    {
      if s == Bid then this.(bid := m) else this.(ask := m)
    }
  }

  function Other(s: Side): Side
  {
    if s == Bid then Ask else Bid
  }

  /** `{'bid': {}, 'ask': {}}` */
  const EmptyBook := Book(map[], map[])

  /** An entry of the order index: `{'price': ..., 'amount': ..., 'side': ...}`. */
  datatype Order = Order(price: int, amount: int, side: Side)

  /**
   * Which handler a channel is bound to. Python stores a bound method;
   * the four handlers are `_ticker`, `_trades`, `_book` and `_raw_book`.
   */
  datatype Kind = TickerKind | TradesKind | AggBookKind | RawBookKind

  /** An entry of the channel registry: `{'symbol', 'channel', 'handler'}`. */
  datatype Channel = Channel(symbol: string, name: string, kind: Kind)

  /**
   * `msg[1]` of a data message, by the shape the handlers test for:
   * a string (with `msg[2]` when present), a list of numbers, or a list
   * of lists. The empty list is `Flat([])` or `Nested([])`; both behave
   * alike in every handler.
   */
  datatype Payload =
    | Text(word: string, next: Option<seq<int>>)
    | Flat(fields: seq<int>)
    | Nested(rows: seq<seq<int>>)

  /**
   * A decoded frame: a JSON list whose first element is a channel id, or a
   * JSON object, of which only the keys the dispatcher reads are kept
   * (`None` stands for an absent key).
   */
  datatype Message =
    | Data(chanId: int, body: Payload)
    | Control(newId: Option<int>, symbol: Option<string>, channel: Option<string>, prec: Option<string>)

  /** What the callbacks receive. A book event carries the whole `book` dict. */
  datatype Event =
    | TickerEvent(pair: string, bid: int, ask: int)
    | TradeEvent(pair: string, side: TradeSide, amount: int, price: int)
    | BookEvent(books: map<string, Book>)

  /** The Python exceptions a handler can raise. */
  datatype Error =
    | NoSuchElement                       // IndexError: msg[1][0] of [], or msg[2] absent
    | BadArity                            // ValueError/TypeError: tuple unpacking
    | NoSuchBook(pair: string)            // KeyError on self.book[pair]
    | NoSuchLevel(side: Side, price: int) // KeyError on self.book[pair][side][price]
    | NoSuchOrder(orderId: int)           // KeyError on self.order_map[order_id]
    | NoSuchField(name: string)           // KeyError on msg['channel'] or msg['prec']

  /** Events emitted while handling one message, and the exception that ended it, if any. */
  datatype Reply = Reply(events: seq<Event>, error: Option<Error>)

  /** The three dicts of a `Bitfinex` session. */
  datatype State = State(channels: map<int, Channel>, books: map<string, Book>, orders: map<int, Order>)

  datatype Outcome = Outcome(state: State, reply: Reply)

  /** A message that ends normally after one push of the whole `book` dict. */
  function Pushed(st: State): Outcome
  {
    Outcome(st, Reply([BookEvent(st.books)], None))
  }

  /** A message that ends in exception `e`, leaving the state `st`. */
  function Failed(st: State, e: Error): Outcome
  {
    Outcome(st, Reply([], Some(e)))
  }

  /** A message that ends normally without emitting anything. */
  function Quiet(st: State): Outcome
  {
    Outcome(st, Reply([], None))
  }

  function Abs(x: int): int
  {
    if x < 0 then -x else x
  }
}
