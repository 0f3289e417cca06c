/**
 * The whole Bitfinex session as a function from a state and one decoded
 * message to the next state and what the message emitted: the dispatcher,
 * the channel registration, and the aggregated and order-indexed book
 * handlers. The `Session` class in module `Feed` is proved to follow it.
 */
module Protocol {
  import opened Types
  import opened Normalize
  import opened Levels

  /** Books of pairs other than `pair` are neither added, removed nor changed. */
  ghost predicate Untouched(before: map<string, Book>, after: map<string, Book>, pair: string)
  {
    forall q :: q != pair ==> (q in after <==> q in before) && (q in before ==> after[q] == before[q])
  }

  /**
   * A book message ends either with exactly one push of the whole `book`
   * dict, or with an exception and no push.
   */
  predicate PushOrFail(r: Outcome)
  {
    && (r.reply.error.None? ==> r.reply.events == [BookEvent(r.state.books)])
    && (r.reply.error.Some? ==> r.reply.events == [])
  }

  lemma LeadingTriples(rows: seq<seq<int>>)
    ensures Triples(rows[..Leading(rows, 3)])
  {
    var k := Leading(rows, 3);
    forall i | 0 <= i < k ensures |rows[..k][i]| == 3 { assert rows[..k][i] == rows[i]; }
  }

  /** Writing a pair's own book back leaves the books dict as it was. */
  lemma SelfUpdate(m: map<string, Book>, k: string, v: Book)
    requires k in m && m[k] == v
    ensures m[k := v] == m
  {
  }

  // ----- `_book`: the aggregated book -----

  /**
   * The delta branch of `_book` on `(price, count, amount)`: a positive
   * count replaces the level, any other count deletes it.
   */
  function AggDelta(st: State, pair: string, price: int, count: int, amount: int): (r: Outcome)
    ensures r.state.channels == st.channels && r.state.orders == st.orders
    ensures Untouched(st.books, r.state.books, pair)
    ensures PushOrFail(r)
    ensures r.reply.error.None? <==>
              pair in st.books && (count > 0 || price in st.books[pair].Levels(Classify(amount).0))
    ensures r.reply.error.Some? ==> r.state == st
  {
    var (s, a) := Classify(amount);
    if pair !in st.books then Failed(st, NoSuchBook(pair))
    else
      var b := st.books[pair];
      if count > 0 then Pushed(st.(books := st.books[pair := b.With(s, b.Levels(s)[price := Level(count, a)])]))
      else if price !in b.Levels(s) then Failed(st, NoSuchLevel(s, price))
      else Pushed(st.(books := st.books[pair := b.With(s, b.Levels(s) - {price})]))
  }

  /** `_book` on the payload of one data message for `pair`. */
  function AggBookStep(st: State, pair: string, p: Payload): (r: Outcome)
    ensures r.state.channels == st.channels && r.state.orders == st.orders
    ensures Untouched(st.books, r.state.books, pair)
    ensures PushOrFail(r)
  {
    match p
    case Text(_, _) => Pushed(st)
    case Flat(f) =>
      if f == [] then Failed(st, NoSuchElement)
      else if |f| != 3 then Failed(st, BadArity)
      else AggDelta(st, pair, f[0], f[1], f[2])
    case Nested(rows) =>
      if rows == [] then Failed(st, NoSuchElement)
      else
        var k := Leading(rows, 3);
        LeadingTriples(rows);
        var st' := st.(books := st.books[pair := AggFold(rows[..k])]);
        if k < |rows| then Failed(st', BadArity) else Pushed(st')
  }

  /**
   * An aggregated snapshot replaces the pair's book by one that depends only
   * on the rows: a level exists where some row lands and holds the last such
   * row's count and absolute amount.
   */
  lemma AggSnapshotLevels(st: State, pair: string, rows: seq<seq<int>>, s: Side, p: int)
    requires rows != [] && Triples(rows)
    ensures var r := AggBookStep(st, pair, Nested(rows));
            var k := LastAt(rows, s, p);
            && r.reply == Reply([BookEvent(r.state.books)], None)
            && pair in r.state.books
            && (p in r.state.books[pair].Levels(s) <==> k >= 0)
            && (k >= 0 ==> r.state.books[pair].Levels(s)[p] == Level(rows[k][1], Abs(rows[k][2])))
  {
    assert rows[..Leading(rows, 3)] == rows;
    AggFoldLast(rows, s, p);
  }

  /** Applying the same aggregated snapshot twice gives what applying it once gives. */
  lemma AggSnapshotIdempotent(st: State, pair: string, rows: seq<seq<int>>)
    ensures var once := AggBookStep(st, pair, Nested(rows));
            AggBookStep(once.state, pair, Nested(rows)) == once
  {
    if rows != [] {
      var k := Leading(rows, 3);
      LeadingTriples(rows);
      var b := AggFold(rows[..k]);
      var s1 := st.(books := st.books[pair := b]);
      assert AggBookStep(st, pair, Nested(rows)) == if k < |rows| then Failed(s1, BadArity) else Pushed(s1);
      SelfUpdate(s1.books, pair, b);
    }
  }

  /**
   * A delta with a positive count makes the level exactly `{count, |amount|}`
   * on the side of the amount's sign, whatever was there, and changes no
   * other level; when the pair has no book it fails and changes nothing.
   */
  lemma AggDeltaUpsert(st: State, pair: string, price: int, count: int, amount: int)
    requires count > 0
    ensures var r := AggBookStep(st, pair, Flat([price, count, amount]));
            pair !in st.books ==> r == Failed(st, NoSuchBook(pair))
    ensures var r := AggBookStep(st, pair, Flat([price, count, amount]));
            var s := Classify(amount).0;
            pair in st.books ==>
              var before := st.books[pair];
              && r.reply.error.None?
              && pair in r.state.books
              && r.state.books[pair].Levels(s)[price] == Level(count, Abs(amount))
              && r.state.books[pair].Levels(s).Keys == before.Levels(s).Keys + {price}
              && (forall q :: q in before.Levels(s) && q != price ==> r.state.books[pair].Levels(s)[q] == before.Levels(s)[q])
              && r.state.books[pair].Levels(Other(s)) == before.Levels(Other(s))
  {
  }

  /**
   * A delta with a count of zero or less deletes the level; it fails when
   * the pair has no book or the level does not exist, and then changes
   * nothing.
   */
  lemma AggDeltaRemove(st: State, pair: string, price: int, count: int, amount: int)
    requires count <= 0
    ensures var r := AggBookStep(st, pair, Flat([price, count, amount]));
            var s := Classify(amount).0;
            && (pair !in st.books ==> r == Failed(st, NoSuchBook(pair)))
            && (pair in st.books && price !in st.books[pair].Levels(s) ==> r == Failed(st, NoSuchLevel(s, price)))
            && (pair in st.books && price in st.books[pair].Levels(s) ==>
                  && r.reply.error.None?
                  && pair in r.state.books
                  && r.state.books[pair].Levels(s) == st.books[pair].Levels(s) - {price}
                  && r.state.books[pair].Levels(Other(s)) == st.books[pair].Levels(Other(s)))
  {
  }

  // ----- `_raw_book`: the order-indexed book -----

  /**
   * The delta branch of `_raw_book` on `(order_id, price, amount)`. A zero
   * price deletes the recorded order: its recorded price is looked up, but
   * the side is the one of the message's amount. Any other price records
   * the order first and then adds it to its level.
   */
  function RawDelta(st: State, pair: string, id: int, price: int, amount: int): (r: Outcome)
    ensures r.state.channels == st.channels
    ensures Untouched(st.books, r.state.books, pair)
    ensures PushOrFail(r)
    ensures price != 0 ==> (r.reply.error.None? <==> pair in st.books)
    ensures price == 0 ==> (r.reply.error.None? <==>
              id in st.orders && pair in st.books && st.orders[id].price in st.books[pair].Levels(Classify(amount).0))
    ensures price == 0 && r.reply.error.Some? ==> r.state == st
  {
    var (s, a) := Classify(amount);
    if price == 0 then
      if id !in st.orders then Failed(st, NoSuchOrder(id))
      else
        var p := st.orders[id].price;
        if pair !in st.books then Failed(st, NoSuchBook(pair))
        else if p !in st.books[pair].Levels(s) then Failed(st, NoSuchLevel(s, p))
        else Pushed(st.(books := st.books[pair := Withdraw(st.books[pair], s, p)], orders := st.orders - {id}))
    else
      var om := st.orders[id := Order(price, a, s)];
      if pair !in st.books then Failed(st.(orders := om), NoSuchBook(pair))
      else Pushed(st.(books := st.books[pair := Place(st.books[pair], s, price, a)], orders := om))
  }

  /** `_raw_book` on the payload of one data message for `pair`. */
  function RawBookStep(st: State, pair: string, p: Payload): (r: Outcome)
    ensures r.state.channels == st.channels
    ensures Untouched(st.books, r.state.books, pair)
    ensures PushOrFail(r)
  {
    match p
    case Text(_, _) => Pushed(st)
    case Flat(f) =>
      if f == [] then Failed(st, NoSuchElement)
      else if |f| != 3 then Failed(st, BadArity)
      else RawDelta(st, pair, f[0], f[1], f[2])
    case Nested(rows) =>
      if rows == [] then Failed(st, NoSuchElement)
      else
        var k := Leading(rows, 3);
        LeadingTriples(rows);
        var st' := st.(books := st.books[pair := RawFold(rows[..k])], orders := RecordAll(st.orders, rows[..k]));
        if k < |rows| then Failed(st', BadArity) else Pushed(st')
  }

  /**
   * A raw snapshot resets the pair's book: each level counts the orders at
   * its side and price and sums their absolute amounts. Every order of the
   * snapshot is recorded from its last row; other recorded orders survive.
   */
  lemma RawSnapshotLevels(st: State, pair: string, rows: seq<seq<int>>, s: Side, p: int, id: int)
    requires rows != [] && Triples(rows)
    ensures var r := RawBookStep(st, pair, Nested(rows));
            var k := LastIdAt(rows, id);
            && r.reply == Reply([BookEvent(r.state.books)], None)
            && pair in r.state.books
            && (p in r.state.books[pair].Levels(s) <==> CountAt(rows, s, p) > 0)
            && (p in r.state.books[pair].Levels(s) ==>
                  r.state.books[pair].Levels(s)[p] == Level(CountAt(rows, s, p), SumAt(rows, s, p)))
            && (k >= 0 ==> id in r.state.orders && r.state.orders[id] == OrderOf(rows[k]))
            && (k < 0 ==> (id in r.state.orders <==> id in st.orders))
            && (k < 0 && id in st.orders ==> r.state.orders[id] == st.orders[id])
  {
    assert rows[..Leading(rows, 3)] == rows;
    RawFoldLevels(rows, s, p);
    RecordAllLast(st.orders, rows, id);
  }

  /** Applying the same raw snapshot twice leaves the state it leaves once. */
  lemma RawSnapshotIdempotent(st: State, pair: string, rows: seq<seq<int>>)
    ensures var once := RawBookStep(st, pair, Nested(rows));
            RawBookStep(once.state, pair, Nested(rows)) == once
  {
    if rows != [] {
      var k := Leading(rows, 3);
      LeadingTriples(rows);
      var pre := rows[..k];
      var b, om := RawFold(pre), RecordAll(st.orders, pre);
      RecordAllIdempotent(st.orders, pre);
      var s1 := st.(books := st.books[pair := b], orders := om);
      assert RawBookStep(st, pair, Nested(rows)) == if k < |rows| then Failed(s1, BadArity) else Pushed(s1);
      SelfUpdate(s1.books, pair, b);
    }
  }

  /**
   * A raw insert (non-zero price) overwrites the order's index entry and
   * adds one order and its absolute amount to the level at that price, or
   * creates the level as `{1, |amount|}`. Without a book for the pair it
   * fails after the index entry was written.
   */
  lemma RawInsertEffect(st: State, pair: string, id: int, price: int, amount: int)
    requires price != 0
    ensures var r := RawBookStep(st, pair, Flat([id, price, amount]));
            var s := Classify(amount).0;
            && r.state.orders == st.orders[id := Order(price, Abs(amount), s)]
            && (pair !in st.books ==> r.reply.error == Some(NoSuchBook(pair)) && r.state.books == st.books)
            && (pair in st.books ==>
                  var lv := st.books[pair].Levels(s);
                  && r.reply.error.None?
                  && pair in r.state.books
                  && r.state.books[pair] == Place(st.books[pair], s, price, Abs(amount))
                  && r.state.books[pair].Levels(s)[price] ==
                       (if price in lv then Level(lv[price].count + 1, lv[price].amount + Abs(amount))
                        else Level(1, Abs(amount))))
  {
  }

  /**
   * A raw delete (zero price) fails on an unknown order id, and on a known
   * one whose pair has no book or whose recorded price has no level on the
   * message's side; a failed delete changes nothing and the order stays in
   * the index. Otherwise the level at the recorded price on the message's
   * side loses one from its count and keeps its amount, disappears when the
   * count reaches zero, and the order leaves the index.
   */
  lemma RawDeleteEffect(st: State, pair: string, id: int, amount: int)
    ensures var r := RawBookStep(st, pair, Flat([id, 0, amount]));
            var s := Classify(amount).0;
            && (id !in st.orders ==> r == Failed(st, NoSuchOrder(id)))
            && (id in st.orders && pair !in st.books ==> r == Failed(st, NoSuchBook(pair)))
            && (id in st.orders && pair in st.books && st.orders[id].price !in st.books[pair].Levels(s) ==>
                  r == Failed(st, NoSuchLevel(s, st.orders[id].price)))
            && (id in st.orders && pair in st.books && st.orders[id].price in st.books[pair].Levels(s) ==>
                  var p := st.orders[id].price;
                  var l := st.books[pair].Levels(s)[p];
                  && r.reply.error.None?
                  && r.state.orders == st.orders - {id}
                  && pair in r.state.books
                  && r.state.books[pair] == Withdraw(st.books[pair], s, p)
                  && (p in r.state.books[pair].Levels(s) <==> l.count != 1)
                  && (p in r.state.books[pair].Levels(s) ==>
                        r.state.books[pair].Levels(s)[p] == Level(l.count - 1, l.amount)))
  {
  }

  /**
   * The delete takes its side from the message, not from the index: an order
   * recorded as a bid and deleted with a negative amount is looked up among
   * the asks, and the delete fails.
   */
  lemma RawDeleteUsesMessageSide()
    ensures var st := State(map[], map["BTCUSD" := Book(map[100 := Level(1, 5)], map[])], map[7 := Order(100, 5, Bid)]);
            RawBookStep(st, "BTCUSD", Flat([7, 0, -1])) == Failed(st, NoSuchLevel(Ask, 100))
  {
  }

  /**
   * A delete carrying a zero amount is taken as an ask: deleting a recorded
   * bid that way fails, and the order stays in the index.
   */
  lemma RawDeleteZeroAmountFails()
    ensures var st := State(map[], map["BTCUSD" := Book(map[100 := Level(2, 8)], map[])],
                            map[1001 := Order(100, 5, Bid), 1002 := Order(100, 3, Bid)]);
            var r := RawBookStep(st, "BTCUSD", Flat([1001, 0, 0]));
            r == Failed(st, NoSuchLevel(Ask, 100)) && 1001 in r.state.orders
  {
  }

  /**
   * A raw snapshot of distinct order ids leaves the pair's book consistent
   * with the index for the snapshot's ids, whatever the index held before.
   */
  lemma RawSnapshotKeepsConsistent(st: State, pair: string, rows: seq<seq<int>>)
    requires rows != [] && Triples(rows) && DistinctIds(rows)
    ensures var r := RawBookStep(st, pair, Nested(rows));
            r.reply.error.None? && pair in r.state.books && Consistent(r.state.books[pair], r.state.orders, IdsOf(rows))
  {
    assert rows[..Leading(rows, 3)] == rows;
    RawSnapshotConsistent(st.orders, rows);
  }

  /**
   * A raw insert of an order id the pair does not hold yet keeps the pair's
   * book consistent with the index, the id joining the pair's orders.
   */
  lemma RawInsertKeepsConsistent(st: State, pair: string, ids: set<int>, id: int, price: int, amount: int)
    requires pair in st.books && Consistent(st.books[pair], st.orders, ids)
    requires price != 0 && id !in ids
    ensures var r := RawBookStep(st, pair, Flat([id, price, amount]));
            r.reply.error.None? && pair in r.state.books && Consistent(r.state.books[pair], r.state.orders, ids + {id})
  {
    var (s, a) := Classify(amount);
    PlaceKeepsConsistent(st.books[pair], st.orders, ids, id, s, price, a);
  }

  /**
   * A raw delete of one of the pair's recorded orders whose message carries
   * the recorded side succeeds and keeps the pair's book consistent with the
   * index, the id leaving the pair's orders.
   */
  lemma RawDeleteKeepsConsistent(st: State, pair: string, ids: set<int>, id: int, amount: int)
    requires pair in st.books && Consistent(st.books[pair], st.orders, ids)
    requires id in st.orders && id in ids && Classify(amount).0 == st.orders[id].side
    ensures var r := RawBookStep(st, pair, Flat([id, 0, amount]));
            r.reply.error.None? && pair in r.state.books && Consistent(r.state.books[pair], r.state.orders, ids - {id})
  {
    WithdrawKeepsConsistent(st.books[pair], st.orders, ids, id, st.orders[id].side);
  }

  // ----- `message_handler`: registry and dispatch -----

  /** What a subscription confirmation selects. */
  datatype Selection = Selected(kind: Kind) | MissingPrec | Invalid

  /**
   * The handler a confirmation for `channel` binds: `book` reads `prec`,
   * where `R0` selects the order-indexed book and any other value the
   * aggregated one; an unknown channel name selects nothing.
   */
  function Select(channel: string, prec: Option<string>): (r: Selection)
    ensures r == Selected(TickerKind) <==> channel == "ticker"
    ensures r == Selected(TradesKind) <==> channel == "trades"
    ensures r == Selected(RawBookKind) <==> channel == "book" && prec == Some("R0")
    ensures r == Selected(AggBookKind) <==> channel == "book" && prec.Some? && prec.value != "R0"
    ensures r == MissingPrec <==> channel == "book" && prec.None?
    ensures r == Invalid <==> channel != "ticker" && channel != "trades" && channel != "book"
  {
    if channel == "ticker" then Selected(TickerKind)
    else if channel == "trades" then Selected(TradesKind)
    else if channel == "book" then
      match prec
      case None => MissingPrec
      case Some(v) => if v == "R0" then Selected(RawBookKind) else Selected(AggBookKind)
    else Invalid
  }

  /**
   * `message_handler` on one decoded message: a list is routed to the
   * handler registered for its channel id (an unregistered id is dropped);
   * an object with `chanId` and `symbol` registers or overwrites that id.
   */
  function Handle(st: State, m: Message): (r: Outcome)
    ensures m.Data? && m.chanId !in st.channels ==> r == Quiet(st)
    ensures m.Data? ==> r.state.channels == st.channels
    ensures m.Control? ==> r.state.books == st.books && r.state.orders == st.orders && r.reply.events == []
    ensures m.Control? && r.state.channels != st.channels ==>
              && m.newId.Some? && m.symbol.Some? && m.channel.Some?
              && Select(m.channel.value, m.prec).Selected?
              && r.state.channels == st.channels[m.newId.value :=
                   Channel(m.symbol.value, m.channel.value, Select(m.channel.value, m.prec).kind)]
  {
    match m
    case Data(id, body) =>
      if id !in st.channels then Quiet(st)
      else
        var ch := st.channels[id];
        (match ch.kind
         case TickerKind => Outcome(st, TickerReply(ch.symbol, body))
         case TradesKind => Outcome(st, TradeReply(ch.symbol, body))
         case AggBookKind => AggBookStep(st, ch.symbol, body)
         case RawBookKind => RawBookStep(st, ch.symbol, body))
    case Control(id, sym, chan, prec) =>
      if id.None? || sym.None? then Quiet(st)
      else if chan.None? then Failed(st, NoSuchField("channel"))
      else
        match Select(chan.value, prec)
        case Invalid => Quiet(st)
        case MissingPrec => Failed(st, NoSuchField("prec"))
        case Selected(k) => Quiet(st.(channels := st.channels[id.value := Channel(sym.value, chan.value, k)]))
  }

  /**
   * A confirmation with `chanId` and `symbol` for a known channel name
   * registers it, overwriting any earlier entry; `book` without `prec`
   * fails and registers nothing.
   */
  lemma ControlRegisters(st: State, id: int, sym: string, chan: string, prec: Option<string>)
    ensures var r := Handle(st, Control(Some(id), Some(sym), Some(chan), prec));
            && (Select(chan, prec).Selected? ==>
                  r == Quiet(st.(channels := st.channels[id := Channel(sym, chan, Select(chan, prec).kind)])))
            && (Select(chan, prec) == MissingPrec ==> r == Failed(st, NoSuchField("prec")))
            && (Select(chan, prec) == Invalid ==> r == Quiet(st))
  {
  }

  /** A heartbeat on any channel leaves the state as it was and yields no ticker or trade event. */
  lemma HeartbeatQuiet(st: State, id: int, next: Option<seq<int>>)
    ensures var r := Handle(st, Data(id, Text("hb", next)));
            && r.state == st
            && r.reply.error.None?
            && forall i :: 0 <= i < |r.reply.events| ==> r.reply.events[i] == BookEvent(st.books)
  {
  }

  /** Every book message ends with one push of the whole `book` dict, or fails without one. */
  lemma BookMessagesPush(st: State, id: int, body: Payload)
    requires id in st.channels && st.channels[id].kind in {AggBookKind, RawBookKind}
    ensures PushOrFail(Handle(st, Data(id, body)))
  {
  }

  // ----- Invariants over all messages -----

  ghost predicate AllAmountsOk(books: map<string, Book>)
  {
    forall q :: q in books ==> AmountsOk(books[q])
  }

  ghost predicate AllLevelsOk(books: map<string, Book>)
  {
    forall q :: q in books ==> LevelsOk(books[q])
  }

  /** The aggregated snapshot rows of `m`, when it is one for an aggregated channel, have positive counts. */
  ghost predicate SnapshotCountsPositive(st: State, m: Message)
  {
    m.Data? && m.chanId in st.channels && st.channels[m.chanId].kind == AggBookKind && m.body.Nested? ==>
      forall i :: 0 <= i < |m.body.rows| && |m.body.rows[i]| == 3 ==> m.body.rows[i][1] > 0
  }

  lemma AggDeltaOk(st: State, pair: string, price: int, count: int, amount: int)
    ensures var r := AggDelta(st, pair, price, count, amount);
            && (AllAmountsOk(st.books) ==> AllAmountsOk(r.state.books))
            && (AllLevelsOk(st.books) ==> AllLevelsOk(r.state.books))
  {
    var r := AggDelta(st, pair, price, count, amount);
    if pair in st.books && r.state.books != st.books {
      var b := st.books[pair];
      var (s, a) := Classify(amount);
      var nb := r.state.books[pair];
      forall t: Side, q | q in nb.Levels(t)
        ensures AmountsOk(b) ==> nb.Levels(t)[q].amount >= 0
        ensures LevelsOk(b) ==> nb.Levels(t)[q].count > 0 && nb.Levels(t)[q].amount >= 0
      {
        if t != s { assert t == Other(s); }
      }
    }
  }

  lemma RawDeltaOk(st: State, pair: string, id: int, price: int, amount: int)
    ensures var r := RawDelta(st, pair, id, price, amount);
            && (AllAmountsOk(st.books) ==> AllAmountsOk(r.state.books))
            && (AllLevelsOk(st.books) ==> AllLevelsOk(r.state.books))
  {
    var (s, a) := Classify(amount);
    if pair in st.books {
      if price == 0 {
        if id in st.orders && st.orders[id].price in st.books[pair].Levels(s) {
          WithdrawOk(st.books[pair], s, st.orders[id].price);
        }
      } else {
        PlaceOk(st.books[pair], s, price, a);
      }
    }
  }

  /** `_book` keeps amounts non-negative, and counts positive when snapshot counts are. */
  lemma AggBookStepOk(st: State, pair: string, p: Payload)
    ensures AllAmountsOk(st.books) ==> AllAmountsOk(AggBookStep(st, pair, p).state.books)
    ensures AllLevelsOk(st.books) && (p.Nested? ==> forall i :: 0 <= i < |p.rows| && |p.rows[i]| == 3 ==> p.rows[i][1] > 0)
            ==> AllLevelsOk(AggBookStep(st, pair, p).state.books)
  {
    match p
    case Text(_, _) =>
    case Flat(f) =>
      if |f| == 3 { AggDeltaOk(st, pair, f[0], f[1], f[2]); }
    case Nested(rows) =>
      var k := Leading(rows, 3);
      LeadingTriples(rows);
      AggFoldOk(rows[..k]);
  }

  /** `_raw_book` keeps amounts non-negative and counts positive. */
  lemma RawBookStepOk(st: State, pair: string, p: Payload)
    ensures AllAmountsOk(st.books) ==> AllAmountsOk(RawBookStep(st, pair, p).state.books)
    ensures AllLevelsOk(st.books) ==> AllLevelsOk(RawBookStep(st, pair, p).state.books)
  {
    match p
    case Text(_, _) =>
    case Flat(f) =>
      if |f| == 3 { RawDeltaOk(st, pair, f[0], f[1], f[2]); }
    case Nested(rows) =>
      LeadingTriples(rows);
  }

  /**
   * Every message keeps every level's amount non-negative, and keeps every
   * count positive provided aggregated snapshots carry positive counts.
   */
  lemma HandleKeepsLevelsOk(st: State, m: Message)
    ensures AllAmountsOk(st.books) ==> AllAmountsOk(Handle(st, m).state.books)
    ensures AllLevelsOk(st.books) && SnapshotCountsPositive(st, m) ==> AllLevelsOk(Handle(st, m).state.books)
  {
    if m.Data? && m.chanId in st.channels {
      var ch := st.channels[m.chanId];
      match ch.kind
      case AggBookKind => AggBookStepOk(st, ch.symbol, m.body);
      case RawBookKind => RawBookStepOk(st, ch.symbol, m.body);
      case _ =>
    }
  }

  /** An aggregated snapshot row with a zero count is stored as a level with a zero count. */
  lemma AggSnapshotKeepsZeroCount()
    ensures var st := State(map[9 := Channel("BTCUSD", "book", AggBookKind)], map[], map[]);
            Handle(st, Data(9, Nested([[100, 0, 5]]))).state.books["BTCUSD"].bid[100] == Level(0, 5)
  {
    assert Leading([[100, 0, 5]], 3) == 1;
  }

  // ----- Example sessions -----

  const Fresh := State(map[], map[], map[])

  /** A ticker confirmation then a ticker tuple: bid and ask are fields one and three. */
  lemma TickerExample()
    ensures var s1 := Handle(Fresh, Control(Some(5), Some("BTCUSD"), Some("ticker"), None)).state;
            Handle(s1, Data(5, Flat([100, 1, 101, 1, 0, 0, 100, 1000, 105, 95]))).reply
              == Reply([TickerEvent("BTCUSD", 100, 101)], None)
  {
  }

  /** A trade snapshot (amounts in tenths): one event per trade, in order. */
  lemma TradeSnapshotExample()
    ensures var s1 := Handle(Fresh, Control(Some(7), Some("ETHUSD"), Some("trades"), None)).state;
            Handle(s1, Data(7, Nested([[1, 1000, -25, 50000], [2, 1001, 10, 50010]]))).reply.events
              == [TradeEvent("ETHUSD", Sell, 25, 50000), TradeEvent("ETHUSD", Buy, 10, 50010)]
  {
    TradeBatchInOrder("ETHUSD", [[1, 1000, -25, 50000], [2, 1001, 10, 50010]]);
  }

  /** An aggregated snapshot then a delta with count zero removes the bid level. */
  lemma AggBookExample()
    ensures var s1 := Handle(Fresh, Control(Some(9), Some("BTCUSD"), Some("book"), Some("P0"))).state;
            var s2 := Handle(s1, Data(9, Nested([[100, 1, 5], [99, 1, -3]]))).state;
            var s3 := Handle(s2, Data(9, Flat([100, 0, 5]))).state;
            && s2.books["BTCUSD"] == Book(map[100 := Level(1, 5)], map[99 := Level(1, 3)])
            && s3.books["BTCUSD"] == Book(map[], map[99 := Level(1, 3)])
  {
    var rows := [[100, 1, 5], [99, 1, -3]];
    var s1 := Handle(Fresh, Control(Some(9), Some("BTCUSD"), Some("book"), Some("P0"))).state;
    assert s1.channels == map[9 := Channel("BTCUSD", "book", AggBookKind)];
    assert Leading(rows, 3) == 2;
    assert rows[..2] == rows;
    assert rows[..1] == [[100, 1, 5]];
    assert AggFold(rows[..1]) == Book(map[100 := Level(1, 5)], map[]);
    assert AggFold(rows) == Book(map[100 := Level(1, 5)], map[99 := Level(1, 3)]);
    var s2 := Handle(s1, Data(9, Nested(rows))).state;
    assert s2 == s1.(books := map["BTCUSD" := AggFold(rows)]);
    assert s2.books["BTCUSD"].bid - {100} == map[];
  }

  /**
   * Two raw orders at one price, then a delete of one: the count drops to
   * one and the amount stays at the sum of both orders.
   */
  lemma RawBookExample()
    ensures var s1 := Handle(Fresh, Control(Some(11), Some("BTCUSD"), Some("book"), Some("R0"))).state;
            var s2 := Handle(s1, Data(11, Nested([[1001, 100, 5], [1002, 100, 3]]))).state;
            var s3 := Handle(s2, Data(11, Flat([1001, 0, 1]))).state;
            && s2.books["BTCUSD"].bid[100] == Level(2, 8)
            && 1001 in s2.orders && 1002 in s2.orders
            && s2.orders[1001].price == 100 && s2.orders[1002].price == 100
            && s3.books["BTCUSD"].bid[100] == Level(1, 8)
            && 1001 !in s3.orders && 1002 in s3.orders
  {
    var rows := [[1001, 100, 5], [1002, 100, 3]];
    var s1 := Handle(Fresh, Control(Some(11), Some("BTCUSD"), Some("book"), Some("R0"))).state;
    assert s1.channels == map[11 := Channel("BTCUSD", "book", RawBookKind)];
    assert Leading(rows, 3) == 2;
    assert rows[..2] == rows;
    assert rows[..1] == [[1001, 100, 5]];
    assert RawFold(rows[..1]) == Book(map[100 := Level(1, 5)], map[]);
    assert RawFold(rows) == Book(map[100 := Level(2, 8)], map[]);
    assert RecordAll(map[], rows) == map[1001 := Order(100, 5, Bid), 1002 := Order(100, 3, Bid)];
    var s2 := Handle(s1, Data(11, Nested(rows))).state;
    assert s2 == s1.(books := map["BTCUSD" := RawFold(rows)], orders := RecordAll(map[], rows));
  }

  /** A data message on an unregistered id changes nothing and emits nothing. */
  lemma UnknownChannelExample(st: State, body: Payload)
    requires 42 !in st.channels
    ensures Handle(st, Data(42, body)) == Quiet(st)
  {
  }
}
