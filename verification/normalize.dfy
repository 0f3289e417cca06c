/**
 * The pure parts of the Bitfinex handlers: side derivation from a signed
 * amount, ticker extraction and trade normalisation.
 */
module Normalize {
  import opened Types

  /**
   * Book side and stored amount of a signed amount: `bid` when the amount
   * is positive, otherwise `ask` with the absolute value (a zero amount is
   * an ask).
   */
  function Classify(amount: int): (r: (Side, int))
    ensures r.0 == Bid <==> amount > 0
    ensures r.1 >= 0 && r.1 == Abs(amount)
  {
    if amount > 0 then (Bid, amount) else (Ask, Abs(amount))
  }

  /**
   * Trade side and emitted amount of a signed amount: `SELL` when the
   * amount is negative, otherwise `BUY` (a zero amount is a buy).
   */
  function TradeSideOf(amount: int): (r: (TradeSide, int))
    ensures r.0 == Sell <==> amount < 0
    ensures r.1 >= 0 && r.1 == Abs(amount)
  {
    (if amount < 0 then Sell else Buy, Abs(amount))
  }

  /** A zero amount is an ask in the books but a buy in the trades. */
  lemma ZeroAmountSides()
    ensures Classify(0).0 == Ask && TradeSideOf(0).0 == Buy
  {
  }

  /** How many leading rows have exactly `n` fields (unpack into `n` names). */
  function Leading(rows: seq<seq<int>>, n: nat): (k: nat)
    ensures k <= |rows|
    ensures forall j :: 0 <= j < k ==> |rows[j]| == n
    ensures k < |rows| ==> |rows[k]| != n
  {
    if rows == [] || |rows[0]| != n then 0 else 1 + Leading(rows[1..], n)
  }

  /**
   * `_ticker`: a heartbeat is ignored; otherwise the payload is unpacked
   * into ten fields of which only the first (bid) and the third (ask) are
   * forwarded.
   */
  function TickerReply(pair: string, p: Payload): (r: Reply)
    ensures |r.events| <= 1
    ensures r.events != [] <==> p.Flat? && |p.fields| == 10
    ensures r.events != [] ==> r.events[0] == TickerEvent(pair, p.fields[0], p.fields[2])
    ensures r.error.None? <==> r.events != [] || (p.Text? && p.word == "hb")
  {
    match p
    case Text(w, _) => if w == "hb" then Reply([], None) else Reply([], Some(BadArity))
    case Flat(f) =>
      if |f| == 10 then Reply([TickerEvent(pair, f[0], f[2])], None) else Reply([], Some(BadArity))
    case Nested(_) => Reply([], Some(BadArity))
  }

  /** The event `_trade_update` builds from a `(id, timestamp, amount, price)` tuple. */
  function TradeOf(pair: string, t: seq<int>): (e: Event)
    requires |t| == 4
    ensures e.TradeEvent? && e.pair == pair && e.price == t[3]
    ensures e.side == Sell <==> t[2] < 0
    ensures e.amount == Abs(t[2])
  {
    var (side, amount) := TradeSideOf(t[2]);
    TradeEvent(pair, side, amount, t[3])
  }

  /**
   * The trade snapshot loop, as it would run if each `_trade_update` were
   * awaited: one event per tuple, in order, until a tuple that does not
   * unpack into four fields.
   */
  function TradeBatch(pair: string, rows: seq<seq<int>>): (r: Reply)
    ensures |r.events| <= |rows|
  {
    if rows == [] then Reply([], None)
    else if |rows[0]| != 4 then Reply([], Some(BadArity))
    else
      var rest := TradeBatch(pair, rows[1..]);
      Reply([TradeOf(pair, rows[0])] + rest.events, rest.error)
  }

  /** A trade snapshot yields exactly one event per well-formed leading tuple, in order. */
  lemma {:induction false} TradeBatchInOrder(pair: string, rows: seq<seq<int>>)
    ensures |TradeBatch(pair, rows).events| == Leading(rows, 4)
    ensures forall i :: 0 <= i < Leading(rows, 4) ==> TradeBatch(pair, rows).events[i] == TradeOf(pair, rows[i])
    ensures TradeBatch(pair, rows).error.None? <==> Leading(rows, 4) == |rows|
  {
    if rows != [] && |rows[0]| == 4 {
      TradeBatchInOrder(pair, rows[1..]);
      var r := TradeBatch(pair, rows);
      forall i | 0 <= i < Leading(rows, 4)
        ensures r.events[i] == TradeOf(pair, rows[i])
      {
        if i > 0 {
          assert rows[1..][i - 1] == rows[i];
        }
      }
    }
  }

  /**
   * `_trades` with every `_trade_update` completed: a list is a snapshot,
   * `'te'` carries one trade in `msg[2]`, `'tu'` and `'hb'` are ignored, and
   * so is any other word. A list of numbers fails on its first element.
   */
  function TradeReply(pair: string, p: Payload): (r: Reply)
    ensures p.Text? && p.word != "te" ==> r == Reply([], None)
    ensures p.Text? && p.word == "te" ==> (r.error.None? <==> p.next.Some? && |p.next.value| == 4)
    ensures p.Flat? ==> r.events == [] && (r.error.None? <==> p.fields == [])
    ensures p.Nested? ==> |r.events| <= |p.rows|
    ensures p.Text? && p.word == "te" && p.next.Some? && |p.next.value| == 4 ==>
              r == Reply([TradeOf(pair, p.next.value)], None)
  {
    match p
    case Nested(rows) => TradeBatch(pair, rows)
    case Flat(f) => if f == [] then Reply([], None) else Reply([], Some(BadArity))
    case Text(w, next) =>
      if w == "te" then
        match next
        case None => Reply([], Some(NoSuchElement))
        case Some(t) => if |t| == 4 then Reply([TradeOf(pair, t)], None) else Reply([], Some(BadArity))
      else Reply([], None)
  }

  /**
   * `_trades` as written: `_trade_update(...)` only creates a
   * coroutine that is never awaited, so no callback fires and no tuple is
   * ever unpacked; only the argument `msg[2]` of the `'te'` branch is
   * evaluated.
   */
  function TradesAsWritten(p: Payload): (r: Reply)
    ensures r.events == []
    ensures r.error.Some? <==> p.Text? && p.word == "te" && p.next.None?
  {
    if p.Text? && p.word == "te" && p.next.None? then Reply([], Some(NoSuchElement)) else Reply([], None)
  }

  /** A live sell execution: as written nothing is emitted; as intended, one trade. */
  lemma TradeCallbackLost(pair: string)
    ensures TradesAsWritten(Text("te", Some([1, 1000, -25, 50000]))).events == []
    ensures TradeReply(pair, Text("te", Some([1, 1000, -25, 50000]))).events
            == [TradeEvent(pair, Sell, 25, 50000)]
  {
  }
}
