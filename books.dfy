/**
  Resting orders: their keys, the two book sides, the crossing rule, and the
  trades that one scan of the firm list makes against the opposite side.
 */
module Books {

  /** Firm ids are 16-bit in the engine; their width plays no part in matching. */
  type FirmId = nat

  type Symbol = string

  /** Prices and cash are only compared, added and subtracted. */
  type Price = int

  /** The identity of a resting order: one per firm and symbol, across both sides. */
  datatype OrderKey = OrderKey(firm: FirmId, symbol: Symbol)

  /** One side of the book, from order key to price. */
  type Book = map<OrderKey, Price>

  /** One executed match: the buyer pays `price` to the seller. */
  datatype Trade = Trade(buyer: FirmId, seller: FirmId, price: Price)

  predicate Distinct(ids: seq<FirmId>)
  {
    forall i, j :: 0 <= i < j < |ids| ==> ids[i] != ids[j]
  }

  /**
    Whether an aggressor on `side` at price `p` crosses a resting order at
    `resting` on the opposite side: a bid crosses an ask at or below it, an
    ask crosses a bid at or above it.
   */
  predicate Crosses(side: char, p: Price, resting: Price)
  {
    if side == 'B' then resting <= p else resting >= p
  }

  /** Whether firm `f` has a resting order for `sym` in `counter` that the aggressor crosses. */
  predicate Crossing(counter: Book, sym: Symbol, side: char, p: Price, f: FirmId)
  {
    OrderKey(f, sym) in counter && Crosses(side, p, counter[OrderKey(f, sym)])
  }

  /**
    The trade an aggressor `firm` on `side` at price `p` makes with the resting
    order of `counter` at `resting`. The trade price is always the sell order's
    price: the resting ask for a buy aggressor, the aggressor's own price for a
    sell aggressor.
   */
  function TradeWith(firm: FirmId, side: char, p: Price, counter: FirmId, resting: Price): (t: Trade)
    ensures side == 'B' ==> t.buyer == firm && t.seller == counter && t.price == resting
    ensures side != 'B' ==> t.seller == firm && t.buyer == counter && t.price == p
  {
    if side == 'B' then Trade(firm, counter, resting) else Trade(counter, firm, p)
  }

  /** The firm on the opposite side of a trade made by an aggressor on `side`. */
  function Counterparty(t: Trade, side: char): FirmId
  {
    if side == 'B' then t.seller else t.buyer
  }

  function Counterparties(trades: seq<Trade>, side: char): (cs: seq<FirmId>)
    ensures |cs| == |trades|
    ensures forall j :: 0 <= j < |trades| ==> cs[j] == Counterparty(trades[j], side)
  {
    seq(|trades|, j requires 0 <= j < |trades| => Counterparty(trades[j], side))
  }

  /**
    The trades made, in order, when an aggressor `firm` on `side` at price `p`
    scans the firms `ids` in order and matches every one whose resting order for
    `sym` in the opposite book `counter` it crosses.
   */
  function Scan(ids: seq<FirmId>, counter: Book, sym: Symbol, firm: FirmId, side: char, p: Price): seq<Trade>
    decreases |ids|
  {
    if ids == [] then []
    else
      var f := ids[|ids| - 1];
      Scan(ids[..|ids| - 1], counter, sym, firm, side, p)
      + if Crossing(counter, sym, side, p, f)
        then [TradeWith(firm, side, p, f, counter[OrderKey(f, sym)])]
        else []
  }

  /** The opposite book once every crossing order for `sym` of a firm in `ids` is taken out. */
  function Unmatched(counter: Book, ids: seq<FirmId>, sym: Symbol, side: char, p: Price): (b: Book)
    ensures forall k :: k in b ==> k in counter && b[k] == counter[k]
  {
    map k | k in counter && !(k.symbol == sym && k.firm in ids && Crosses(side, p, counter[k])) :: counter[k]
  }

  /** The keys of `keys` that belong to firm `f`. */
  function FirmKeys(keys: set<OrderKey>, f: FirmId): (ks: set<OrderKey>)
    ensures forall k :: k in ks <==> k in keys && k.firm == f
  {
    set k | k in keys && k.firm == f
  }

  /** How many orders firm `f` has resting on one side. */
  function Resting(book: Book, f: FirmId): nat
  {
    |FirmKeys(book.Keys, f)|
  }

  /** The keys for `sym` in `counter` that an aggressor on `side` at `p` crosses. */
  function CrossingKeys(counter: Book, sym: Symbol, side: char, p: Price): (ks: set<OrderKey>)
    ensures forall k :: k in ks <==> k in counter && k.symbol == sym && Crosses(side, p, counter[k])
  {
    set k | k in counter && k.symbol == sym && Crosses(side, p, counter[k])
  }

  // ---------------------------------------------------------------------------
  // The scan, step by step: what the loop over the firm list relies on.

  lemma ScanSnoc(ids: seq<FirmId>, x: FirmId, counter: Book, sym: Symbol, firm: FirmId, side: char, p: Price)
    ensures Scan(ids + [x], counter, sym, firm, side, p)
         == Scan(ids, counter, sym, firm, side, p)
            + if Crossing(counter, sym, side, p, x)
              then [TradeWith(firm, side, p, x, counter[OrderKey(x, sym)])]
              else []
  {
    assert (ids + [x])[..|ids|] == ids;
  }

  /** Taking out one more firm's orders removes exactly its crossing key. */
  lemma UnmatchedSnoc(counter: Book, ids: seq<FirmId>, x: FirmId, sym: Symbol, side: char, p: Price)
    ensures Unmatched(counter, ids + [x], sym, side, p)
         == if Crossing(counter, sym, side, p, x)
            then Unmatched(counter, ids, sym, side, p) - {OrderKey(x, sym)}
            else Unmatched(counter, ids, sym, side, p)
  {
    var a := Unmatched(counter, ids + [x], sym, side, p);
    var b := if Crossing(counter, sym, side, p, x)
             then Unmatched(counter, ids, sym, side, p) - {OrderKey(x, sym)}
             else Unmatched(counter, ids, sym, side, p);
    forall k
      ensures k in a <==> k in b
    {
      assert k.firm in ids + [x] <==> k.firm in ids || k.firm == x;
    }
    assert a.Keys == b.Keys;
  }

  // ---------------------------------------------------------------------------
  // What the scan matches.

  /** Every trade of the scan is with a listed firm whose resting order crosses, on the crossing rule's terms. */
  lemma {:induction false} ScanSound(ids: seq<FirmId>, counter: Book, sym: Symbol, firm: FirmId, side: char, p: Price)
    ensures forall t :: t in Scan(ids, counter, sym, firm, side, p) ==>
              Counterparty(t, side) in ids
              && Crossing(counter, sym, side, p, Counterparty(t, side))
              && t == TradeWith(firm, side, p, Counterparty(t, side), counter[OrderKey(Counterparty(t, side), sym)])
    decreases |ids|
  {
    if ids != [] {
      var init := ids[..|ids| - 1];
      ScanSound(init, counter, sym, firm, side, p);
      assert ids == init + [ids[|ids| - 1]];
    }
  }

  /** A listed firm is a counterparty of the scan exactly when its resting order crosses. */
  lemma {:induction false} ScanComplete(ids: seq<FirmId>, counter: Book, sym: Symbol, firm: FirmId, side: char, p: Price)
    ensures forall f :: f in Counterparties(Scan(ids, counter, sym, firm, side, p), side)
                        <==> f in ids && Crossing(counter, sym, side, p, f)
    decreases |ids|
  {
    if ids != [] {
      var init := ids[..|ids| - 1];
      var x := ids[|ids| - 1];
      ScanComplete(init, counter, sym, firm, side, p);
      assert ids == init + [x];
      var T0 := Scan(init, counter, sym, firm, side, p);
      var T := Scan(ids, counter, sym, firm, side, p);
      if Crossing(counter, sym, side, p, x) {
        var t := TradeWith(firm, side, p, x, counter[OrderKey(x, sym)]);
        assert T == T0 + [t];
        assert Counterparties(T, side) == Counterparties(T0, side) + [x];
      } else {
        assert T == T0;
      }
    }
  }

  /** When every firm with an order on the opposite side is listed, the scan trades exactly when some order crosses. */
  lemma ScanEmpty(ids: seq<FirmId>, counter: Book, sym: Symbol, firm: FirmId, side: char, p: Price)
    requires forall k :: k in counter ==> k.firm in ids
    ensures Scan(ids, counter, sym, firm, side, p) != [] <==> CrossingKeys(counter, sym, side, p) != {}
  {
    var T := Scan(ids, counter, sym, firm, side, p);
    ScanComplete(ids, counter, sym, firm, side, p);
    if T != [] {
      var f := Counterparties(T, side)[0];
      assert f in Counterparties(T, side);
      assert OrderKey(f, sym) in CrossingKeys(counter, sym, side, p);
    }
    if CrossingKeys(counter, sym, side, p) != {} {
      var k :| k in CrossingKeys(counter, sym, side, p);
      assert k == OrderKey(k.firm, sym);
      assert k.firm in Counterparties(T, side);
    }
  }

  /** When every firm with an order on the opposite side is listed, every crossing order for the symbol is taken out. */
  lemma UnmatchedListed(counter: Book, ids: seq<FirmId>, sym: Symbol, side: char, p: Price)
    requires forall k :: k in counter ==> k.firm in ids
    ensures forall k :: k in Unmatched(counter, ids, sym, side, p) <==>
                        k in counter && !(k.symbol == sym && Crosses(side, p, counter[k]))
  {
  }

  /** Scanning a list without repeats matches each firm at most once. */
  lemma {:induction false} ScanDistinct(ids: seq<FirmId>, counter: Book, sym: Symbol, firm: FirmId, side: char, p: Price)
    requires Distinct(ids)
    ensures Distinct(Counterparties(Scan(ids, counter, sym, firm, side, p), side))
    decreases |ids|
  {
    if ids != [] {
      var init := ids[..|ids| - 1];
      var x := ids[|ids| - 1];
      ScanDistinct(init, counter, sym, firm, side, p);
      ScanComplete(init, counter, sym, firm, side, p);
      assert ids == init + [x];
      assert x !in init;
      var T0 := Scan(init, counter, sym, firm, side, p);
      var T := Scan(ids, counter, sym, firm, side, p);
      if Crossing(counter, sym, side, p, x) {
        var t := TradeWith(firm, side, p, x, counter[OrderKey(x, sym)]);
        assert T == T0 + [t];
        assert Counterparties(T, side) == Counterparties(T0, side) + [x];
      } else {
        assert T == T0;
      }
    }
  }

  /**
    When `ids` lists without repeats every firm with an order on the opposite
    side, the scan makes one trade per crossing resting order for the symbol.
   */
  lemma {:induction false} ScanCount(ids: seq<FirmId>, counter: Book, sym: Symbol, firm: FirmId, side: char, p: Price)
    requires Distinct(ids)
    ensures |Scan(ids, counter, sym, firm, side, p)|
         == |set k | k in CrossingKeys(counter, sym, side, p) && k.firm in ids|
    decreases |ids|
  {
    var K := CrossingKeys(counter, sym, side, p);
    if ids == [] {
      assert (set k | k in K && k.firm in ids) == {};
    } else {
      var init := ids[..|ids| - 1];
      var x := ids[|ids| - 1];
      assert ids == init + [x];
      assert Distinct(init) && x !in init;
      ScanCount(init, counter, sym, firm, side, p);
      var crossing := Crossing(counter, sym, side, p, x);
      assert |Scan(ids, counter, sym, firm, side, p)|
          == |Scan(init, counter, sym, firm, side, p)| + (if crossing then 1 else 0) by {
        ScanSnoc(init, x, counter, sym, firm, side, p);
      }
      CrossingFirmsSnoc(init, x, counter, sym, side, p);
    }
  }

  /** Listing one more firm adds its crossing order, if any, to the crossing orders of listed firms. */
  lemma CrossingFirmsSnoc(ids: seq<FirmId>, x: FirmId, counter: Book, sym: Symbol, side: char, p: Price)
    requires x !in ids
    ensures var K := CrossingKeys(counter, sym, side, p);
            |set k | k in K && k.firm in ids + [x]|
            == |set k | k in K && k.firm in ids| + (if Crossing(counter, sym, side, p, x) then 1 else 0)
  {
    var K := CrossingKeys(counter, sym, side, p);
    var A := set k | k in K && k.firm in ids;
    var B := set k | k in K && k.firm in ids + [x];
    if Crossing(counter, sym, side, p, x) {
      assert B == A + {OrderKey(x, sym)};
      assert OrderKey(x, sym) !in A;
    } else {
      assert B == A;
    }
  }
}
