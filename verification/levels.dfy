/**
 * The two book reconstructions on one pair's book, as functions: the
 * aggregated snapshot (each row replaces its level), the order-indexed
 * snapshot and insert (each order adds to its level), the order-indexed
 * delete, and the order index writes. Each fold is characterised by an
 * independent definition (last matching row; count and sum of matching
 * rows), and the order index is related to the book by count consistency.
 */
module Levels {
  import opened Types
  import opened Normalize

  /** Every row unpacks into three names. */
  predicate Triples(rows: seq<seq<int>>)
  {
    forall i :: 0 <= i < |rows| ==> |rows[i]| == 3
  }

  // ----- Aggregated book: rows are (price, count, amount) -----

  /** `book[side][price] = {'count': count, 'amount': amount}` for one row. */
  function AggPut(b: Book, row: seq<int>): (r: Book)
    requires |row| == 3
    ensures r.Levels(Classify(row[2]).0) == b.Levels(Classify(row[2]).0)[row[0] := Level(row[1], Abs(row[2]))]
    ensures r.Levels(Other(Classify(row[2]).0)) == b.Levels(Other(Classify(row[2]).0))
  {
    var (s, a) := Classify(row[2]);
    b.With(s, b.Levels(s)[row[0] := Level(row[1], a)])
  }

  /**
   * The aggregated snapshot loop, started from an empty book; the amounts
   * it stores are absolute values.
   */
  function AggFold(rows: seq<seq<int>>): (r: Book)
    requires Triples(rows)
    ensures AmountsOk(r)
  {
    if rows == [] then EmptyBook
    else
      TriplesPrefix(rows, |rows| - 1);
      var pre := AggFold(rows[..|rows| - 1]);
      AggPutOk(pre, rows[|rows| - 1]);
      AggPut(pre, rows[|rows| - 1])
  }

  lemma AggPutOk(b: Book, row: seq<int>)
    requires |row| == 3
    ensures AmountsOk(b) ==> AmountsOk(AggPut(b, row))
  {
    var r := AggPut(b, row);
    var s := Classify(row[2]).0;
    forall t: Side, q | q in r.Levels(t)
      ensures AmountsOk(b) ==> r.Levels(t)[q].amount >= 0
    {
      if t != s { assert t == Other(s); }
    }
  }

  /** The aggregated row lands on side `s` at price `p`. */
  predicate AggAt(row: seq<int>, s: Side, p: int)
    requires |row| == 3
  {
    Classify(row[2]).0 == s && row[0] == p
  }

  /** Index of the last row landing on `(s, p)`, or -1. */
  function LastAt(rows: seq<seq<int>>, s: Side, p: int): (k: int)
    requires Triples(rows)
    ensures -1 <= k < |rows|
    ensures k >= 0 ==> AggAt(rows[k], s, p)
    ensures forall j :: k < j < |rows| ==> !AggAt(rows[j], s, p)
  {
    if rows == [] then -1
    else if AggAt(rows[|rows| - 1], s, p) then |rows| - 1
    else LastAt(rows[..|rows| - 1], s, p)
  }

  /**
   * An aggregated snapshot holds a level at `(s, p)` exactly when some row
   * lands there, and that level is the last such row's count and absolute
   * amount: a later duplicate overwrites an earlier one.
   */
  lemma {:induction false} AggFoldLast(rows: seq<seq<int>>, s: Side, p: int)
    requires Triples(rows)
    ensures var k := LastAt(rows, s, p);
            && (p in AggFold(rows).Levels(s) <==> k >= 0)
            && (k >= 0 ==> AggFold(rows).Levels(s)[p] == Level(rows[k][1], Abs(rows[k][2])))
  {
    if rows != [] {
      var pre := rows[..|rows| - 1];
      assert Triples(pre) by {
        forall i | 0 <= i < |pre| ensures |pre[i]| == 3 { assert pre[i] == rows[i]; }
      }
      AggFoldLast(pre, s, p);
      var k := LastAt(pre, s, p);
      if k >= 0 { assert pre[k] == rows[k]; }
    }
  }

  // ----- Order-indexed book: rows are (order_id, price, amount) -----

  /**
   * One order added at `price` on side `s`: an existing level gets
   * `count + 1` and `amount + a`, a missing one is created as `{1, a}`.
   * Every other level is left as it was.
   */
  function Place(b: Book, s: Side, price: int, a: int): (r: Book)
    ensures r.Levels(Other(s)) == b.Levels(Other(s))
    ensures r.Levels(s).Keys == b.Levels(s).Keys + {price}
    ensures forall q :: q in b.Levels(s) && q != price ==> r.Levels(s)[q] == b.Levels(s)[q]
    ensures price in b.Levels(s) ==>
              r.Levels(s)[price] == Level(b.Levels(s)[price].count + 1, b.Levels(s)[price].amount + a)
    ensures price !in b.Levels(s) ==> r.Levels(s)[price] == Level(1, a)
  {
    var lv := b.Levels(s);
    if price in lv then b.With(s, lv[price := Level(lv[price].count + 1, lv[price].amount + a)])
    else b.With(s, lv[price := Level(1, a)])
  }

  /** The order-index entry a row records. */
  function OrderOf(row: seq<int>): (o: Order)
    requires |row| == 3
    ensures o.price == row[1] && o.amount == Abs(row[2])
    ensures o.side == Bid <==> row[2] > 0
  {
    var (s, a) := Classify(row[2]);
    Order(row[1], a, s)
  }

  /**
   * The raw snapshot loop's book, started from an empty book: every level
   * it builds holds at least one order and a non-negative amount.
   */
  function RawFold(rows: seq<seq<int>>): (r: Book)
    requires Triples(rows)
    ensures LevelsOk(r)
  {
    if rows == [] then EmptyBook
    else
      TriplesPrefix(rows, |rows| - 1);
      var o := OrderOf(rows[|rows| - 1]);
      var pre := RawFold(rows[..|rows| - 1]);
      PlaceOk(pre, o.side, o.price, o.amount);
      Place(pre, o.side, o.price, o.amount)
  }

  /** The order ids the rows carry. */
  function IdsOf(rows: seq<seq<int>>): set<int>
    requires Triples(rows)
  {
    if rows == [] then {} else IdsOf(rows[..|rows| - 1]) + {rows[|rows| - 1][0]}
  }

  /**
   * The raw snapshot loop's writes into the order index, on top of `om`:
   * the index gains exactly the snapshot's ids and loses none.
   */
  function RecordAll(om: map<int, Order>, rows: seq<seq<int>>): (r: map<int, Order>)
    requires Triples(rows)
    ensures r.Keys == om.Keys + IdsOf(rows)
  {
    if rows == [] then om
    else
      TriplesPrefix(rows, |rows| - 1);
      var row := rows[|rows| - 1];
      RecordAll(om, rows[..|rows| - 1])[row[0] := OrderOf(row)]
  }

  /** One more row of a raw snapshot: one more order placed and recorded. */
  lemma RawFoldStep(om: map<int, Order>, rows: seq<seq<int>>, i: nat)
    requires i < |rows| && Triples(rows[..i]) && |rows[i]| == 3
    ensures Triples(rows[..i + 1])
    ensures RawFold(rows[..i + 1]) == Place(RawFold(rows[..i]), OrderOf(rows[i]).side, rows[i][1], OrderOf(rows[i]).amount)
    ensures RecordAll(om, rows[..i + 1]) == RecordAll(om, rows[..i])[rows[i][0] := OrderOf(rows[i])]
  {
    assert rows[..i + 1][..i] == rows[..i];
    assert rows[..i + 1][i] == rows[i];
    TriplesExtend(rows, i);
  }

  /**
   * One more row of an aggregated snapshot, as the loop over the pair's
   * entry of the books dict sees it.
   */
  lemma AggSnapshotStep(books0: map<string, Book>, books: map<string, Book>, pair: string,
                        rows: seq<seq<int>>, i: nat)
    requires i < |rows| && Triples(rows[..i]) && |rows[i]| == 3
    requires books == books0[pair := AggFold(rows[..i])]
    ensures Triples(rows[..i + 1])
    ensures books[pair := AggPut(books[pair], rows[i])] == books0[pair := AggFold(rows[..i + 1])]
  {
    TriplesExtend(rows, i);
    assert rows[..i + 1][..i] == rows[..i];
    UpdateTwice(books0, pair, AggFold(rows[..i]), AggPut(AggFold(rows[..i]), rows[i]));
  }

  /**
   * One more row of a raw snapshot, as the loop over the pair's entry of
   * the books dict and the order index sees it.
   */
  lemma RawSnapshotStep(books0: map<string, Book>, books: map<string, Book>, om0: map<int, Order>,
                        om: map<int, Order>, pair: string, rows: seq<seq<int>>, i: nat)
    requires i < |rows| && Triples(rows[..i]) && |rows[i]| == 3
    requires books == books0[pair := RawFold(rows[..i])]
    requires om == RecordAll(om0, rows[..i])
    ensures Triples(rows[..i + 1])
    ensures books[pair := Place(books[pair], OrderOf(rows[i]).side, rows[i][1], OrderOf(rows[i]).amount)]
            == books0[pair := RawFold(rows[..i + 1])]
    ensures om[rows[i][0] := OrderOf(rows[i])] == RecordAll(om0, rows[..i + 1])
  {
    RawFoldStep(om0, rows, i);
    var o := OrderOf(rows[i]);
    UpdateTwice(books0, pair, RawFold(rows[..i]), Place(RawFold(rows[..i]), o.side, rows[i][1], o.amount));
  }

  /** Writing a pair's book twice leaves only the second write. */
  lemma UpdateTwice(m: map<string, Book>, k: string, a: Book, b: Book)
    ensures m[k := a][k := b] == m[k := b]
  {
  }

  lemma TriplesExtend(rows: seq<seq<int>>, i: nat)
    requires i < |rows| && Triples(rows[..i]) && |rows[i]| == 3
    ensures Triples(rows[..i + 1])
  {
    var pre, ext := rows[..i], rows[..i + 1];
    forall j | 0 <= j < |ext| ensures |ext[j]| == 3 {
      if j < i { assert ext[j] == pre[j]; }
    }
  }

  /** A loop over rows that stops at the first row of another length stops at `Leading`. */
  lemma LeadingStops(rows: seq<seq<int>>, i: nat)
    requires i < |rows| && Triples(rows[..i]) && |rows[i]| != 3
    ensures Leading(rows, 3) == i
  {
    forall j | 0 <= j < i ensures |rows[j]| == 3 { assert rows[..i][j] == rows[j]; }
  }

  /** The raw row lands on side `s` at price `p`. */
  predicate RawAt(row: seq<int>, s: Side, p: int)
    requires |row| == 3
  {
    OrderOf(row).side == s && row[1] == p
  }

  /** Number of rows landing on `(s, p)`. */
  function CountAt(rows: seq<seq<int>>, s: Side, p: int): nat
    requires Triples(rows)
  {
    if rows == [] then 0
    else CountAt(rows[..|rows| - 1], s, p) + if RawAt(rows[|rows| - 1], s, p) then 1 else 0
  }

  /** Sum of the absolute amounts of the rows landing on `(s, p)`. */
  function SumAt(rows: seq<seq<int>>, s: Side, p: int): (n: int)
    requires Triples(rows)
    ensures n >= 0
  {
    if rows == [] then 0
    else
      var row := rows[|rows| - 1];
      SumAt(rows[..|rows| - 1], s, p) + if RawAt(row, s, p) then OrderOf(row).amount else 0
  }

  lemma TriplesPrefix(rows: seq<seq<int>>, n: nat)
    requires n <= |rows| && forall j :: 0 <= j < n ==> |rows[j]| == 3
    ensures Triples(rows[..n])
  {
    forall i | 0 <= i < n ensures |rows[..n][i]| == 3 { assert rows[..n][i] == rows[i]; }
  }

  /**
   * A raw snapshot holds a level at `(s, p)` exactly when some order lands
   * there; its count is the number of such orders and its amount the sum of
   * their absolute amounts.
   */
  lemma {:induction false} RawFoldLevels(rows: seq<seq<int>>, s: Side, p: int)
    requires Triples(rows)
    ensures p in RawFold(rows).Levels(s) <==> CountAt(rows, s, p) > 0
    ensures CountAt(rows, s, p) == 0 ==> SumAt(rows, s, p) == 0
    ensures p in RawFold(rows).Levels(s) ==>
              RawFold(rows).Levels(s)[p] == Level(CountAt(rows, s, p), SumAt(rows, s, p))
  {
    if rows != [] {
      var pre := rows[..|rows| - 1];
      TriplesPrefix(rows, |rows| - 1);
      RawFoldLevels(pre, s, p);
      var o := OrderOf(rows[|rows| - 1]);
      if o.side != s { assert s == Other(o.side); }
    }
  }

  /** Index of the last row carrying order id `id`, or -1. */
  function LastIdAt(rows: seq<seq<int>>, id: int): (k: int)
    requires Triples(rows)
    ensures -1 <= k < |rows|
    ensures k >= 0 ==> rows[k][0] == id
    ensures forall j :: k < j < |rows| ==> rows[j][0] != id
  {
    if rows == [] then -1
    else if rows[|rows| - 1][0] == id then |rows| - 1
    else LastIdAt(rows[..|rows| - 1], id)
  }

  /**
   * After a raw snapshot every order id of the snapshot maps to the entry of
   * its last row, and every other entry of the order index is kept as it
   * was (the index is not cleared).
   */
  lemma {:induction false} RecordAllLast(om: map<int, Order>, rows: seq<seq<int>>, id: int)
    requires Triples(rows)
    ensures var k := LastIdAt(rows, id);
            && (k >= 0 ==> id in RecordAll(om, rows) && RecordAll(om, rows)[id] == OrderOf(rows[k]))
            && (k < 0 ==> (id in RecordAll(om, rows) <==> id in om))
            && (k < 0 && id in om ==> RecordAll(om, rows)[id] == om[id])
  {
    if rows != [] {
      var pre := rows[..|rows| - 1];
      TriplesPrefix(rows, |rows| - 1);
      RecordAllLast(om, pre, id);
      var k := LastIdAt(pre, id);
      if k >= 0 { assert pre[k] == rows[k]; }
    }
  }

  /** Re-recording the same snapshot rows changes nothing more. */
  lemma RecordAllIdempotent(om: map<int, Order>, rows: seq<seq<int>>)
    requires Triples(rows)
    ensures RecordAll(RecordAll(om, rows), rows) == RecordAll(om, rows)
  {
    var once := RecordAll(om, rows);
    var twice := RecordAll(once, rows);
    forall id
      ensures id in twice <==> id in once
      ensures id in once ==> twice[id] == once[id]
    {
      RecordAllLast(om, rows, id);
      RecordAllLast(once, rows, id);
    }
  }

  /**
   * The order-indexed delete: the level's count drops by one and its amount
   * is left unchanged; a level whose count reaches zero is removed.
   */
  function Withdraw(b: Book, s: Side, p: int): (r: Book)
    requires p in b.Levels(s)
    ensures r.Levels(Other(s)) == b.Levels(Other(s))
    ensures forall q :: q != p ==> (q in r.Levels(s) <==> q in b.Levels(s))
    ensures forall q :: q != p && q in b.Levels(s) ==> r.Levels(s)[q] == b.Levels(s)[q]
    ensures p in r.Levels(s) <==> b.Levels(s)[p].count != 1
    ensures p in r.Levels(s) ==>
              r.Levels(s)[p] == Level(b.Levels(s)[p].count - 1, b.Levels(s)[p].amount)
  {
    var lv := b.Levels(s);
    if lv[p].count - 1 == 0 then b.With(s, lv - {p})
    else b.With(s, lv[p := Level(lv[p].count - 1, lv[p].amount)])
  }

  // ----- Well-formed levels -----

  /** Every level has a non-negative amount. */
  ghost predicate AmountsOk(b: Book)
  {
    forall s: Side, p :: p in b.Levels(s) ==> b.Levels(s)[p].amount >= 0
  }

  /** Every level has a positive count and a non-negative amount. */
  ghost predicate LevelsOk(b: Book)
  {
    forall s: Side, p :: p in b.Levels(s) ==> b.Levels(s)[p].count > 0 && b.Levels(s)[p].amount >= 0
  }

  /** An aggregated snapshot whose rows all carry positive counts has positive counts. */
  lemma AggFoldOk(rows: seq<seq<int>>)
    requires Triples(rows)
    ensures (forall i :: 0 <= i < |rows| ==> rows[i][1] > 0) ==> LevelsOk(AggFold(rows))
  {
    forall s: Side, p | p in AggFold(rows).Levels(s)
      ensures (forall i :: 0 <= i < |rows| ==> rows[i][1] > 0) ==> AggFold(rows).Levels(s)[p].count > 0
    {
      AggFoldLast(rows, s, p);
    }
  }

  lemma PlaceOk(b: Book, s: Side, price: int, a: int)
    requires a >= 0
    ensures AmountsOk(b) ==> AmountsOk(Place(b, s, price, a))
    ensures LevelsOk(b) ==> LevelsOk(Place(b, s, price, a))
  {
    var r := Place(b, s, price, a);
    forall t: Side, q | q in r.Levels(t)
      ensures AmountsOk(b) ==> r.Levels(t)[q].amount >= 0
      ensures LevelsOk(b) ==> r.Levels(t)[q].count > 0 && r.Levels(t)[q].amount >= 0
    {
      if t != s { assert t == Other(s); }
    }
  }

  lemma WithdrawOk(b: Book, s: Side, p: int)
    requires p in b.Levels(s)
    ensures AmountsOk(b) ==> AmountsOk(Withdraw(b, s, p))
    ensures LevelsOk(b) ==> LevelsOk(Withdraw(b, s, p))
  {
    var r := Withdraw(b, s, p);
    forall t: Side, q | q in r.Levels(t)
      ensures AmountsOk(b) ==> r.Levels(t)[q].amount >= 0
      ensures LevelsOk(b) ==> r.Levels(t)[q].count > 0 && r.Levels(t)[q].amount >= 0
    {
      if t != s { assert t == Other(s); }
    }
  }

  // ----- Order index consistency (counts) -----

  /*
   * The order index is one dict shared by every pair, and the source keeps no
   * record of which pair an order belongs to. Consistency of one pair's book
   * is therefore stated against `ids`, the order ids that pair's book was
   * built from: a bookkeeping set of the proofs, not a field of the session.
   */

  /** The ids among `ids` that the order index records on side `s` at price `p`. */
  function OrdersAt(om: map<int, Order>, ids: set<int>, s: Side, p: int): set<int>
  {
    set id | id in om && id in ids && om[id].side == s && om[id].price == p
  }

  /**
   * At side `s` and price `p` the book agrees with the pair's orders in the
   * index: a level exists exactly where one of them sits, and its count is
   * the number of them.
   */
  ghost predicate ConsistentAt(b: Book, om: map<int, Order>, ids: set<int>, s: Side, p: int)
  {
    && (p in b.Levels(s) <==> OrdersAt(om, ids, s, p) != {})
    && (p in b.Levels(s) ==> b.Levels(s)[p].count == |OrdersAt(om, ids, s, p)|)
  }

  /** One pair's book agrees with its orders `ids` in the shared index at every side and price. */
  ghost predicate Consistent(b: Book, om: map<int, Order>, ids: set<int>)
  {
    forall s: Side, p :: ConsistentAt(b, om, ids, s, p)
  }

  /** Recording order `o` under an id new to the pair adds that id at `o`'s side and price only. */
  lemma OrdersAtInsert(om: map<int, Order>, ids: set<int>, id: int, o: Order, t: Side, q: int)
    requires id !in ids
    ensures t == o.side && q == o.price ==> OrdersAt(om[id := o], ids + {id}, t, q) == OrdersAt(om, ids, t, q) + {id}
    ensures t == o.side && q == o.price ==> |OrdersAt(om[id := o], ids + {id}, t, q)| == |OrdersAt(om, ids, t, q)| + 1
    ensures !(t == o.side && q == o.price) ==> OrdersAt(om[id := o], ids + {id}, t, q) == OrdersAt(om, ids, t, q)
  {
    if t == o.side && q == o.price {
      assert OrdersAt(om[id := o], ids + {id}, t, q) == OrdersAt(om, ids, t, q) + {id};
      assert id !in OrdersAt(om, ids, t, q);
    } else {
      assert OrdersAt(om[id := o], ids + {id}, t, q) == OrdersAt(om, ids, t, q);
    }
  }

  /** Dropping one of the pair's recorded ids removes it from its own side and price only. */
  lemma OrdersAtRemove(om: map<int, Order>, ids: set<int>, id: int, t: Side, q: int)
    requires id in om && id in ids
    ensures t == om[id].side && q == om[id].price ==> OrdersAt(om - {id}, ids - {id}, t, q) == OrdersAt(om, ids, t, q) - {id}
    ensures t == om[id].side && q == om[id].price ==> |OrdersAt(om - {id}, ids - {id}, t, q)| == |OrdersAt(om, ids, t, q)| - 1
    ensures !(t == om[id].side && q == om[id].price) ==> OrdersAt(om - {id}, ids - {id}, t, q) == OrdersAt(om, ids, t, q)
  {
    if t == om[id].side && q == om[id].price {
      assert OrdersAt(om - {id}, ids - {id}, t, q) == OrdersAt(om, ids, t, q) - {id};
      assert id in OrdersAt(om, ids, t, q);
    } else {
      assert OrdersAt(om - {id}, ids - {id}, t, q) == OrdersAt(om, ids, t, q);
    }
  }

  /**
   * Inserting an order whose id the pair does not hold yet keeps the book
   * consistent; the id may sit in the index for another pair, whose entry
   * the insert overwrites.
   */
  lemma PlaceKeepsConsistent(b: Book, om: map<int, Order>, ids: set<int>, id: int, s: Side, price: int, a: int)
    requires Consistent(b, om, ids) && id !in ids
    ensures Consistent(Place(b, s, price, a), om[id := Order(price, a, s)], ids + {id})
  {
    var r := Place(b, s, price, a);
    var o := Order(price, a, s);
    var om' := om[id := o];
    forall t: Side, q
      ensures ConsistentAt(r, om', ids + {id}, t, q)
    {
      assert ConsistentAt(b, om, ids, t, q);
      OrdersAtInsert(om, ids, id, o, t, q);
      if t != s { assert t == Other(s); }
    }
  }

  /**
   * Deleting one of the pair's recorded orders, with a message carrying the
   * recorded side, finds its level (the delete does not fail) and keeps the
   * book consistent.
   */
  lemma WithdrawKeepsConsistent(b: Book, om: map<int, Order>, ids: set<int>, id: int, s: Side)
    requires Consistent(b, om, ids) && id in om && id in ids && om[id].side == s
    ensures om[id].price in b.Levels(s)
    ensures Consistent(Withdraw(b, s, om[id].price), om - {id}, ids - {id})
  {
    var p := om[id].price;
    assert ConsistentAt(b, om, ids, s, p);
    assert id in OrdersAt(om, ids, s, p);
    var r := Withdraw(b, s, p);
    var om' := om - {id};
    forall t: Side, q
      ensures ConsistentAt(r, om', ids - {id}, t, q)
    {
      assert ConsistentAt(b, om, ids, t, q);
      OrdersAtRemove(om, ids, id, t, q);
      if t != s { assert t == Other(s); }
    }
  }

  /** Rows carry pairwise distinct order ids. */
  predicate DistinctIds(rows: seq<seq<int>>)
    requires Triples(rows)
  {
    forall i, j :: 0 <= i < j < |rows| ==> rows[i][0] != rows[j][0]
  }

  /** An id is among the rows' ids exactly when some row carries it. */
  lemma {:induction false} IdsOfLast(rows: seq<seq<int>>, id: int)
    requires Triples(rows)
    ensures id in IdsOf(rows) <==> LastIdAt(rows, id) >= 0
  {
    if rows != [] {
      TriplesPrefix(rows, |rows| - 1);
      IdsOfLast(rows[..|rows| - 1], id);
    }
  }

  /**
   * A raw snapshot of distinct orders is consistent with the index it leaves
   * behind, whatever the index held before: entries the snapshot does not
   * mention (stale orders, other pairs' orders) are not among its ids.
   */
  lemma {:induction false} RawSnapshotConsistent(om: map<int, Order>, rows: seq<seq<int>>)
    requires Triples(rows) && DistinctIds(rows)
    ensures Consistent(RawFold(rows), RecordAll(om, rows), IdsOf(rows))
  {
    if rows == [] {
      forall s: Side, p ensures ConsistentAt(EmptyBook, om, {}, s, p) {
        assert OrdersAt(om, {}, s, p) == {};
      }
    } else {
      var pre := rows[..|rows| - 1];
      var row := rows[|rows| - 1];
      TriplesPrefix(rows, |rows| - 1);
      assert DistinctIds(pre) by {
        forall i, j | 0 <= i < j < |pre| ensures pre[i][0] != pre[j][0] {
          assert pre[i] == rows[i] && pre[j] == rows[j];
        }
      }
      RawSnapshotConsistent(om, pre);
      forall j | 0 <= j < |pre| ensures pre[j][0] != row[0] { assert pre[j] == rows[j]; }
      IdsOfLast(pre, row[0]);
      var o := OrderOf(row);
      PlaceKeepsConsistent(RawFold(pre), RecordAll(om, pre), IdsOf(pre), row[0], o.side, o.price, o.amount);
    }
  }

  /**
   * Re-sending a known order id at its own price adds it a second time: the
   * level counts two orders while the index holds one.
   */
  lemma ResendBreaksConsistency()
    ensures var om := map[1 := Order(100, 5, Bid)];
            && Consistent(Place(EmptyBook, Bid, 100, 5), om, {1})
            && Place(Place(EmptyBook, Bid, 100, 5), Bid, 100, 5).bid[100] == Level(2, 10)
            && !Consistent(Place(Place(EmptyBook, Bid, 100, 5), Bid, 100, 5), om[1 := Order(100, 5, Bid)], {1})
  {
    var om := map[1 := Order(100, 5, Bid)];
    forall s: Side, p ensures ConsistentAt(EmptyBook, map[], {}, s, p) {
      assert OrdersAt(map[], {}, s, p) == {};
    }
    assert om == map[][1 := Order(100, 5, Bid)];
    PlaceKeepsConsistent(EmptyBook, map[], {}, 1, Bid, 100, 5);
    assert {} + {1} == {1};
    assert om[1 := Order(100, 5, Bid)] == om;
    assert OrdersAt(om, {1}, Bid, 100) == {1};
    assert !ConsistentAt(Place(Place(EmptyBook, Bid, 100, 5), Bid, 100, 5), om[1 := Order(100, 5, Bid)], {1}, Bid, 100);
  }
}
