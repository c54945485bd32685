/**
  The engine object. Its six fields are the containers of the order book and
  the firm ledger, updated in place; every method is proved to leave them as
  the matching function of module Matching says.
 */
module Engine {
  import opened Books
  import opened Ledger
  import M = Matching

  /** The four containers matchOrder updates while it scans the firm list. */
  datatype Progress = Progress(counter: Book, own: Book, orders: map<FirmId, Counts>, cash: map<FirmId, Price>)

  /**
    One iteration of the scan, visiting firm `f`: when its order for the
    symbol crosses, the order is taken out of the opposite side, the aggressor
    `k` leaves its own side, and the aggressor's fill counter and cash are
    updated first, the counterparty's second.
   */
  function Visit(st: Progress, k: OrderKey, side: char, p: Price, f: FirmId): (r: Progress)
    requires k.firm in st.orders && k.firm in st.cash && f in st.orders && f in st.cash
    ensures r.orders.Keys == st.orders.Keys && r.cash.Keys == st.cash.Keys
  {
    var c := OrderKey(f, k.symbol);
    if c in st.counter && Crosses(side, p, st.counter[c]) then
      Progress(st.counter - {c}, st.own - {k}, Filled(Filled(st.orders, k.firm), f),
               if side == 'B' then Paid(Paid(st.cash, k.firm, -st.counter[c]), f, st.counter[c])
               else Paid(Paid(st.cash, k.firm, p), f, -p))
    else st
  }

  /** The containers after the scan has visited the first `i` firms of `ids`. */
  function Visited(ids: seq<FirmId>, i: nat, k: OrderKey, side: char, p: Price, st0: Progress): (r: Progress)
    requires i <= |ids|
    requires forall f :: f in ids ==> f in st0.orders && f in st0.cash
    requires k.firm in st0.orders && k.firm in st0.cash
    ensures r.orders.Keys == st0.orders.Keys && r.cash.Keys == st0.cash.Keys
    decreases i
  {
    if i == 0 then st0 else Visit(Visited(ids, i - 1, k, side, p, st0), k, side, p, ids[i - 1])
  }

  /**
    The scan after `i` firms in closed form: the trades are those of `Scan`,
    the opposite side has lost the orders they took, the aggressor's side has
    lost its key once a trade happened, and the ledger has the trades booked.
   */
  ghost predicate Scanned(ids: seq<FirmId>, i: int, k: OrderKey, side: char, p: Price, st0: Progress,
                          trades: seq<Trade>, st: Progress)
  {
    && 0 <= i <= |ids|
    && trades == Scan(ids[..i], st0.counter, k.symbol, k.firm, side, p)
    && st.counter == Unmatched(st0.counter, ids[..i], k.symbol, side, p)
    && st.own == (if trades == [] then st0.own else st0.own - {k})
    && st.orders == AddFills(st0.orders, trades)
    && st.cash == Settle(st0.cash, trades)
  }

  /** Scanning one more firm extends the scan and the unmatched book by that firm's crossing order. */
  lemma ScanNext(ids: seq<FirmId>, i: int, k: OrderKey, side: char, p: Price, counter0: Book)
    requires 0 <= i < |ids|
    ensures var f, sym := ids[i], k.symbol;
            && Scan(ids[..i + 1], counter0, sym, k.firm, side, p)
               == Scan(ids[..i], counter0, sym, k.firm, side, p)
                  + (if Crossing(counter0, sym, side, p, f)
                     then [TradeWith(k.firm, side, p, f, counter0[OrderKey(f, sym)])]
                     else [])
            && Unmatched(counter0, ids[..i + 1], sym, side, p)
               == (if Crossing(counter0, sym, side, p, f)
                   then Unmatched(counter0, ids[..i], sym, side, p) - {OrderKey(f, sym)}
                   else Unmatched(counter0, ids[..i], sym, side, p))
  {
    var f := ids[i];
    assert ids[..i + 1] == ids[..i] + [f];
    ScanSnoc(ids[..i], f, counter0, k.symbol, k.firm, side, p);
    UnmatchedSnoc(counter0, ids[..i], f, k.symbol, side, p);
  }

  /** What a visit that matches leaves behind, one side at a time. */
  lemma VisitCrossing(st: Progress, k: OrderKey, side: char, p: Price, f: FirmId)
    requires k.firm in st.orders && k.firm in st.cash && f in st.orders && f in st.cash
    requires OrderKey(f, k.symbol) in st.counter && Crosses(side, p, st.counter[OrderKey(f, k.symbol)])
    ensures var c := OrderKey(f, k.symbol);
            var v := Visit(st, k, side, p, f);
            && v.counter == st.counter - {c} && v.own == st.own - {k}
            && v.orders == Filled(Filled(st.orders, k.firm), f)
            && v.cash == if side == 'B' then Paid(Paid(st.cash, k.firm, -st.counter[c]), f, st.counter[c])
                         else Paid(Paid(st.cash, k.firm, p), f, -p)
  {
  }

  /** A visit that matches books its trade into the fill counters. */
  lemma VisitFills(st: Progress, k: OrderKey, side: char, p: Price, f: FirmId,
                   orders0: map<FirmId, Counts>, trades: seq<Trade>)
    requires k.firm in orders0 && f in orders0 && k.firm in st.cash && f in st.cash
    requires st.orders == AddFills(orders0, trades)
    requires OrderKey(f, k.symbol) in st.counter && Crosses(side, p, st.counter[OrderKey(f, k.symbol)])
    ensures Visit(st, k, side, p, f).orders
         == AddFills(orders0, trades + [TradeWith(k.firm, side, p, f, st.counter[OrderKey(f, k.symbol)])])
  {
    VisitCrossing(st, k, side, p, f);
    AddFillsSnoc(orders0, trades, TradeWith(k.firm, side, p, f, st.counter[OrderKey(f, k.symbol)]), k.firm, f);
  }

  /** A visit that matches books its trade into the cash accounts. */
  lemma VisitCash(st: Progress, k: OrderKey, side: char, p: Price, f: FirmId,
                  cash0: map<FirmId, Price>, trades: seq<Trade>)
    requires k.firm in st.orders && f in st.orders && k.firm in cash0 && f in cash0
    requires st.cash == Settle(cash0, trades)
    requires OrderKey(f, k.symbol) in st.counter && Crosses(side, p, st.counter[OrderKey(f, k.symbol)])
    ensures Visit(st, k, side, p, f).cash
         == Settle(cash0, trades + [TradeWith(k.firm, side, p, f, st.counter[OrderKey(f, k.symbol)])])
  {
    var c := OrderKey(f, k.symbol);
    var t := TradeWith(k.firm, side, p, f, st.counter[c]);
    VisitCrossing(st, k, side, p, f);
    if side == 'B' {
      SettleSnoc(cash0, trades, t, k.firm, f, -st.counter[c], st.counter[c]);
    } else {
      SettleSnoc(cash0, trades, t, k.firm, f, p, -p);
    }
  }

  /** A visit that matches keeps the closed form: its trade is the scan's next trade. */
  lemma VisitMatched(ids: seq<FirmId>, i: int, k: OrderKey, side: char, p: Price, st0: Progress,
                     trades: seq<Trade>, st: Progress)
    requires 0 <= i < |ids| && ids[i] !in ids[..i]
    requires Scanned(ids, i, k, side, p, st0, trades, st)
    requires k.firm in st0.orders && k.firm in st0.cash && ids[i] in st0.orders && ids[i] in st0.cash
    requires OrderKey(ids[i], k.symbol) in st.counter && Crosses(side, p, st.counter[OrderKey(ids[i], k.symbol)])
    ensures Scanned(ids, i + 1, k, side, p, st0, Scan(ids[..i + 1], st0.counter, k.symbol, k.firm, side, p),
                    Visit(st, k, side, p, ids[i]))
  {
    var f, c := ids[i], OrderKey(ids[i], k.symbol);
    var t := TradeWith(k.firm, side, p, f, st.counter[c]);
    var v := Visit(st, k, side, p, f);
    VisitCrossing(st, k, side, p, f);
    VisitFills(st, k, side, p, f, st0.orders, trades);
    VisitCash(st, k, side, p, f, st0.cash, trades);
    assert Scan(ids[..i + 1], st0.counter, k.symbol, k.firm, side, p) == trades + [t]
        && v.counter == Unmatched(st0.counter, ids[..i + 1], k.symbol, side, p) by {
      ScanNext(ids, i, k, side, p, st0.counter);
      assert Crossing(st0.counter, k.symbol, side, p, f);
    }
  }

  /** A visit that does not match changes nothing, and neither does the scan. */
  lemma VisitSkipped(ids: seq<FirmId>, i: int, k: OrderKey, side: char, p: Price, st0: Progress,
                     trades: seq<Trade>, st: Progress)
    requires 0 <= i < |ids| && ids[i] !in ids[..i]
    requires Scanned(ids, i, k, side, p, st0, trades, st)
    requires k.firm in st0.orders && k.firm in st0.cash && ids[i] in st0.orders && ids[i] in st0.cash
    requires !(OrderKey(ids[i], k.symbol) in st.counter && Crosses(side, p, st.counter[OrderKey(ids[i], k.symbol)]))
    ensures Scanned(ids, i + 1, k, side, p, st0, Scan(ids[..i + 1], st0.counter, k.symbol, k.firm, side, p),
                    Visit(st, k, side, p, ids[i]))
  {
    var f, c := ids[i], OrderKey(ids[i], k.symbol);
    ScanNext(ids, i, k, side, p, st0.counter);
    assert c in st.counter <==> c in st0.counter;
    assert Scan(ids[..i + 1], st0.counter, k.symbol, k.firm, side, p) == trades;
  }

  /** After `i` visits the containers are those of the closed form. */
  lemma {:induction false} VisitedScans(ids: seq<FirmId>, i: nat, k: OrderKey, side: char, p: Price, st0: Progress)
    requires Distinct(ids) && i <= |ids|
    requires forall f :: f in ids ==> f in st0.orders && f in st0.cash
    requires k.firm in st0.orders && k.firm in st0.cash
    ensures Scanned(ids, i, k, side, p, st0, Scan(ids[..i], st0.counter, k.symbol, k.firm, side, p),
                    Visited(ids, i, k, side, p, st0))
    decreases i
  {
    if i == 0 {
      assert ids[..0] == [];
      assert AddFills(st0.orders, []) == st0.orders;
      assert Settle(st0.cash, []) == st0.cash;
      assert Unmatched(st0.counter, [], k.symbol, side, p) == st0.counter;
    } else {
      VisitedScans(ids, i - 1, k, side, p, st0);
      assert ids[i - 1] !in ids[..i - 1] by {
        assert forall j :: 0 <= j < i - 1 ==> ids[..i - 1][j] == ids[j];
      }
      var trades := Scan(ids[..i - 1], st0.counter, k.symbol, k.firm, side, p);
      var st := Visited(ids, i - 1, k, side, p, st0);
      var c := OrderKey(ids[i - 1], k.symbol);
      if c in st.counter && Crosses(side, p, st.counter[c]) {
        VisitMatched(ids, i - 1, k, side, p, st0, trades, st);
      } else {
        VisitSkipped(ids, i - 1, k, side, p, st0, trades, st);
      }
    }
  }

  /** The scan over the whole firm list leaves the state matchOrder specifies. */
  lemma VisitedMatch(s: M.State, firm: FirmId, sym: Symbol, side: char)
    requires side == 'B' || side == 'S'
    requires OrderKey(firm, sym) in M.Own(s, side)
    requires Distinct(s.ids)
    requires forall f :: f in s.ids ==> f in s.orders && f in s.amountPaid
    requires firm in s.orders && firm in s.amountPaid
    ensures var k := OrderKey(firm, sym);
            var st := Visited(s.ids, |s.ids|, k, side, M.AggressorPrice(s, firm, sym, side),
                              Progress(M.Counter(s, side), M.Own(s, side), s.orders, s.amountPaid));
            M.Match(s, firm, sym, side)
            == s.(buyBook := if side == 'B' then st.own else st.counter,
                  sellBook := if side == 'B' then st.counter else st.own,
                  orders := st.orders, amountPaid := st.cash)
  {
    var k := OrderKey(firm, sym);
    var p := M.AggressorPrice(s, firm, sym, side);
    var st0 := Progress(M.Counter(s, side), M.Own(s, side), s.orders, s.amountPaid);
    VisitedScans(s.ids, |s.ids|, k, side, p, st0);
    assert s.ids[..|s.ids|] == s.ids;
  }

  /** Adds one to `f`'s live counter for each of its keys in `book`, one key at a time. */
  method CountInto(counts: map<FirmId, Counts>, f: FirmId, book: Book) returns (r: map<FirmId, Counts>)
    requires f in counts
    ensures r == Counted(counts, f, Resting(book, f))
  {
    r := counts;
    var keys := book.Keys;
    assert FirmKeys(book.Keys - keys, f) == {};
    while keys != {}
      invariant keys <= book.Keys
      invariant r == counts[f := counts[f].(live := counts[f].live + |FirmKeys(book.Keys - keys, f)|)]
      decreases keys
    {
      var k :| k in keys;
      if k.firm == f {
        r := r[f := r[f].(live := r[f].live + 1)];
      }
      assert FirmKeys(book.Keys - (keys - {k}), f)
          == FirmKeys(book.Keys - keys, f) + if k.firm == f then {k} else {};
      keys := keys - {k};
    }
    assert book.Keys - keys == book.Keys;
  }

  class MatchingEngine {
    var buyBook: Book
    var sellBook: Book
    /** Per firm: the live-order counter and the fill counter. */
    var orders: map<FirmId, Counts>
    /** Per firm: net cash, lowered when it buys and raised when it sells. */
    var amountPaid: map<FirmId, Price>
    /** Firm ids in the order they were first seen. */
    var ID: seq<FirmId>
    var seen: set<FirmId>

    /** The fields as a value. */
    function Abs(): M.State
      reads this
    {
      M.State(buyBook, sellBook, orders, amountPaid, ID, seen)
    }

    ghost predicate Valid()
      reads this
    {
      M.Valid(Abs())
    }

    constructor ()
      ensures Valid() && Abs() == M.Empty
    {
      buyBook, sellBook := map[], map[];
      orders, amountPaid := map[], map[];
      ID, seen := [], {};
    }

    /** Whether the key rests on the buy side. */
    function InBuy(firm: FirmId, sym: Symbol): (b: bool)
      reads this
      ensures b <==> OrderKey(firm, sym) in Abs().buyBook
      ensures Valid() && b ==> !InSell(firm, sym)
    {
      OrderKey(firm, sym) in buyBook
    }

    /** Whether the key rests on the sell side. */
    function InSell(firm: FirmId, sym: Symbol): (b: bool)
      reads this
      ensures b <==> OrderKey(firm, sym) in Abs().sellBook
    {
      OrderKey(firm, sym) in sellBook
    }

    method CancelOrder(firm: FirmId, sym: Symbol)
      requires Valid()
      modifies this
      ensures Valid()
      ensures Abs() == M.CancelOrder(old(Abs()), firm, sym)
    {
      if InBuy(firm, sym) {
        buyBook := buyBook - {OrderKey(firm, sym)};
      } else if InSell(firm, sym) {
        sellBook := sellBook - {OrderKey(firm, sym)};
      }
      M.CancelRemoves(old(Abs()), firm, sym);
    }

    method NewOrder(firm: FirmId, sym: Symbol, side: char, price: Price)
      requires Valid()
      modifies this
      ensures Valid()
      ensures Abs() == M.NewOrder(old(Abs()), firm, sym, side, price)
    {
      var k := OrderKey(firm, sym);
      if side == 'B' {
        if !InBuy(firm, sym) && !InSell(firm, sym) {
          buyBook := buyBook[k := price];
          if firm !in seen {
            ID := ID + [firm];
            seen := seen + {firm};
          }
          if firm !in orders && firm !in amountPaid {
            orders := orders[firm := Counts(0, 0)];
            amountPaid := amountPaid[firm := 0];
          }
          assert Abs() == M.Placed(old(Abs()), firm, sym, side, price);
          M.PlacedValid(old(Abs()), firm, sym, side, price);
          MatchOrder(firm, sym, side);
        }
      } else if side == 'S' {
        if !InSell(firm, sym) && !InBuy(firm, sym) {
          sellBook := sellBook[k := price];
          orders := orders[firm := Counts(0, 0)];
          amountPaid := amountPaid[firm := 0];
          if firm !in seen {
            ID := ID + [firm];
            seen := seen + {firm};
          }
          // The initialise-if-absent step that follows here cannot fire:
          // both entries were just set.
          assert Abs() == M.Placed(old(Abs()), firm, sym, side, price);
          M.PlacedValid(old(Abs()), firm, sym, side, price);
          MatchOrder(firm, sym, side);
        }
      }
    }

    method ModifyOrder(firm: FirmId, sym: Symbol, price: Price)
      requires Valid()
      modifies this
      ensures Valid()
      ensures Abs() == M.ModifyOrder(old(Abs()), firm, sym, price)
    {
      var k := OrderKey(firm, sym);
      if InBuy(firm, sym) {
        buyBook := buyBook - {k};
        buyBook := buyBook[k := price];
        assert buyBook == old(buyBook)[k := price];
        MatchOrder(firm, sym, 'B');
      } else if InSell(firm, sym) {
        sellBook := sellBook - {k};
        sellBook := sellBook[k := price];
        assert sellBook == old(sellBook)[k := price];
        MatchOrder(firm, sym, 'S');
      }
    }

    /**
      Matches the order `(firm, sym)` on `side` against the other side. Its
      price is read once; the scan then runs over every known firm without
      stopping at the first match.
     */
    method MatchOrder(firm: FirmId, sym: Symbol, side: char)
      requires Valid()
      requires side == 'B' ==> OrderKey(firm, sym) in buyBook
      requires side == 'S' ==> OrderKey(firm, sym) in sellBook
      modifies this
      ensures Valid()
      ensures Abs() == M.Match(old(Abs()), firm, sym, side)
    {
      assert forall f :: f in ID ==> f in seen;
      if side == 'B' {
        MatchBuy(firm, sym);
      } else if side == 'S' {
        MatchSell(firm, sym);
      }
      M.MatchValid(old(Abs()), firm, sym, side);
    }

    /**
      matchOrder for a buy aggressor: the scan over the sell side. The four
      containers are updated in place as the scan goes; here they are carried
      in locals and stored back once the scan is over.
     */
    method MatchBuy(firm: FirmId, sym: Symbol)
      requires Distinct(ID)
      requires forall f :: f in ID ==> f in orders && f in amountPaid
      requires firm in orders && firm in amountPaid
      requires OrderKey(firm, sym) in buyBook
      modifies this
      ensures Abs() == M.Match(old(Abs()), firm, sym, 'B')
    {
      var k := OrderKey(firm, sym);
      var price := buyBook[k];
      var ids := ID;
      var buy: Book, sell: Book := buyBook, sellBook;
      var fills: map<FirmId, Counts>, cash: map<FirmId, Price> := orders, amountPaid;
      ghost var st0 := Progress(sell, buy, fills, cash);
      var i := 0;
      while i < |ids|
        modifies {}
        invariant i <= |ids|
        invariant Progress(sell, buy, fills, cash) == Visited(ids, i, k, 'B', price, st0)
      {
        var f := ids[i];
        var c := OrderKey(f, sym);
        if c in sell && sell[c] <= price {
          fills := Filled(Filled(fills, firm), f);
          cash := Paid(Paid(cash, firm, -sell[c]), f, sell[c]);
          sell := sell - {c};
          buy := buy - {k};
        }
        i := i + 1;
      }
      VisitedMatch(old(Abs()), firm, sym, 'B');
      buyBook, sellBook, orders, amountPaid := buy, sell, fills, cash;
    }

    /** matchOrder for a sell aggressor: the scan over the buy side, in the same way. */
    method MatchSell(firm: FirmId, sym: Symbol)
      requires Distinct(ID)
      requires forall f :: f in ID ==> f in orders && f in amountPaid
      requires firm in orders && firm in amountPaid
      requires OrderKey(firm, sym) in sellBook
      modifies this
      ensures Abs() == M.Match(old(Abs()), firm, sym, 'S')
    {
      var k := OrderKey(firm, sym);
      var price := sellBook[k];
      var ids := ID;
      var buy: Book, sell: Book := buyBook, sellBook;
      var fills: map<FirmId, Counts>, cash: map<FirmId, Price> := orders, amountPaid;
      ghost var st0 := Progress(buy, sell, fills, cash);
      var i := 0;
      while i < |ids|
        modifies {}
        invariant i <= |ids|
        invariant Progress(buy, sell, fills, cash) == Visited(ids, i, k, 'S', price, st0)
      {
        var f := ids[i];
        var c := OrderKey(f, sym);
        if c in buy && buy[c] >= price {
          fills := Filled(Filled(fills, firm), f);
          cash := Paid(Paid(cash, firm, price), f, -price);
          buy := buy - {c};
          sell := sell - {k};
        }
        i := i + 1;
      }
      VisitedMatch(old(Abs()), firm, sym, 'S');
      buyBook, sellBook, orders, amountPaid := buy, sell, fills, cash;
    }

    /** Adds to every known firm's live counter the number of its resting orders on both sides. */
    method LiveOrders()
      requires Valid()
      modifies this
      ensures Valid()
      ensures Abs() == M.LiveOrders(old(Abs()))
    {
      var ids := ID;
      var counts := orders;
      ghost var buy, sell, counts0 := buyBook, sellBook, orders;
      var i := 0;
      while i < |ids|
        modifies {}
        invariant i <= |ids|
        invariant counts == M.AddLive(counts0, ids[..i], buy, sell)
      {
        var f := ids[i];
        assert ids[..i + 1] == ids[..i] + [f];
        assert f !in ids[..i];
        M.AddLiveSnoc(counts0, ids[..i], f, buy, sell);
        counts := CountInto(counts, f, buyBook);
        counts := CountInto(counts, f, sellBook);
        i := i + 1;
      }
      assert ids[..|ids|] == ids;
      orders := counts;
    }
  }
}
