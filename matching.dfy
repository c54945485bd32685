/**
  The matching engine as a value: its six containers, the invariant they keep,
  and each operation as a function from the old state to the new one. The
  class in module Engine is proved to compute exactly these functions.
 */
module Matching {
  import opened Books
  import opened Ledger

  /**
    The engine's containers: the two books, the per-firm `orders` entries and
    `amountPaid`, the firm ids in first-seen order (`ids`) and the same ids as
    a set (`seen`).
   */
  datatype State = State(
    buyBook: Book,
    sellBook: Book,
    orders: map<FirmId, Counts>,
    amountPaid: map<FirmId, Price>,
    ids: seq<FirmId>,
    seen: set<FirmId>)

  /** The engine as constructed: every container empty. */
  const Empty: State := State(map[], map[], map[], map[], [], {})

  /**
    The engine invariant: no key rests on both sides; `ids` has no repeats and
    `seen` is its set; every firm with a resting order has been seen; and the
    seen firms are exactly those with `orders` and `amountPaid` entries.
   */
  ghost predicate Valid(s: State)
  {
    && (forall k :: k in s.buyBook ==> k !in s.sellBook)
    && Distinct(s.ids)
    && s.seen == (set f | f in s.ids)
    && (forall k :: k in s.buyBook ==> k.firm in s.seen)
    && (forall k :: k in s.sellBook ==> k.firm in s.seen)
    && s.orders.Keys == s.seen
    && s.amountPaid.Keys == s.seen
  }

  /** Every key of `a` is in `b` with the same price. */
  predicate SubBook(a: Book, b: Book)
  {
    forall k :: k in a ==> k in b && a[k] == b[k]
  }

  /** The book of an aggressor on `side`. */
  function Own(s: State, side: char): Book
  {
    if side == 'B' then s.buyBook else s.sellBook
  }

  /** The book an aggressor on `side` matches against. */
  function Counter(s: State, side: char): Book
  {
    if side == 'B' then s.sellBook else s.buyBook
  }

  /** The aggressor's price, read once before the scan. */
  function AggressorPrice(s: State, firm: FirmId, sym: Symbol, side: char): Price
    requires OrderKey(firm, sym) in Own(s, side)
  {
    Own(s, side)[OrderKey(firm, sym)]
  }

  /** The trades one matching scan over the firm list makes. */
  function Trades(s: State, firm: FirmId, sym: Symbol, side: char): seq<Trade>
    requires OrderKey(firm, sym) in Own(s, side)
  {
    Scan(s.ids, Counter(s, side), sym, firm, side, AggressorPrice(s, firm, sym, side))
  }

  // ---------------------------------------------------------------------------
  // Operations

  /**
    matchOrder: the aggressor `(firm, sym)` on `side` is matched against every
    crossing resting order for `sym` on the other side of a firm in `ids`, in
    `ids` order, at the price it held when the scan began. Each match takes the
    counter-order out, counts a fill for both firms and moves the sell order's
    price from buyer to seller; the aggressor leaves its book once it has
    matched at all. A side other than 'B' or 'S' changes nothing.
   */
  function Match(s: State, firm: FirmId, sym: Symbol, side: char): (r: State)
    requires side == 'B' ==> OrderKey(firm, sym) in s.buyBook
    requires side == 'S' ==> OrderKey(firm, sym) in s.sellBook
    ensures r.ids == s.ids && r.seen == s.seen
    ensures SubBook(r.buyBook, s.buyBook) && SubBook(r.sellBook, s.sellBook)
    ensures r.orders.Keys == s.orders.Keys && r.amountPaid.Keys == s.amountPaid.Keys
    ensures forall f :: f in r.orders && f in s.orders ==> r.orders[f].live == s.orders[f].live
  {
    if side != 'B' && side != 'S' then s
    else
      var k := OrderKey(firm, sym);
      var p := AggressorPrice(s, firm, sym, side);
      var trades := Trades(s, firm, sym, side);
      var own := if trades == [] then Own(s, side) else Own(s, side) - {k};
      var counter := Unmatched(Counter(s, side), s.ids, sym, side, p);
      s.(buyBook := if side == 'B' then own else counter,
         sellBook := if side == 'B' then counter else own,
         orders := AddFills(s.orders, trades),
         amountPaid := Settle(s.amountPaid, trades))
  }

  /** Appends a firm to `ids` and `seen` the first time it is met. */
  function Register(s: State, firm: FirmId): (r: State)
    ensures firm in r.seen
    ensures r.ids == if firm in s.seen then s.ids else s.ids + [firm]
    ensures r.seen == s.seen + {firm}
    ensures r.buyBook == s.buyBook && r.sellBook == s.sellBook
    ensures r.orders == s.orders && r.amountPaid == s.amountPaid
  {
    if firm in s.seen then s else s.(ids := s.ids + [firm], seen := s.seen + {firm})
  }

  /** Gives a firm zeroed `orders` and `amountPaid` entries when it has neither. */
  function InitIfAbsent(s: State, firm: FirmId): (r: State)
    ensures firm in s.orders || firm in s.amountPaid ==> r == s
    ensures firm !in s.orders && firm !in s.amountPaid ==>
              && r.orders == s.orders[firm := Counts(0, 0)]
              && r.amountPaid == s.amountPaid[firm := 0]
    ensures r.buyBook == s.buyBook && r.sellBook == s.sellBook && r.ids == s.ids && r.seen == s.seen
  {
    if firm !in s.orders && firm !in s.amountPaid
    then s.(orders := s.orders[firm := Counts(0, 0)], amountPaid := s.amountPaid[firm := 0])
    else s
  }

  /** Whether newOrder takes the order: a known side, and the key on neither side. */
  predicate Accepts(s: State, firm: FirmId, sym: Symbol, side: char)
  {
    (side == 'B' || side == 'S')
    && OrderKey(firm, sym) !in s.buyBook && OrderKey(firm, sym) !in s.sellBook
  }

  /**
    The state an accepted newOrder hands to matching. A buy rests the order,
    registers the firm and initialises its entries only if it has none. A sell
    rests the order, then resets the firm's entries to zero whatever they held,
    then registers the firm (its second, initialise-if-absent step can no longer
    fire).
   */
  function Placed(s: State, firm: FirmId, sym: Symbol, side: char, p: Price): (r: State)
    requires side == 'B' || side == 'S'
    ensures Own(r, side) == Own(s, side)[OrderKey(firm, sym) := p]
    ensures OrderKey(firm, sym) in Own(r, side) && Own(r, side)[OrderKey(firm, sym)] == p
    ensures Counter(r, side) == Counter(s, side)
    ensures forall f :: f != firm ==> (f in r.orders <==> f in s.orders) && (f in r.amountPaid <==> f in s.amountPaid)
    ensures forall f :: f != firm && f in s.orders ==> r.orders[f] == s.orders[f]
    ensures forall f :: f != firm && f in s.amountPaid ==> r.amountPaid[f] == s.amountPaid[f]
    ensures side == 'B' && firm in s.orders && firm in s.amountPaid ==>
              firm in r.orders && firm in r.amountPaid
              && r.orders[firm] == s.orders[firm] && r.amountPaid[firm] == s.amountPaid[firm]
    ensures firm in r.seen && r.ids == if firm in s.seen then s.ids else s.ids + [firm]
    ensures side == 'S' ==> firm in r.orders && firm in r.amountPaid
                            && r.orders[firm] == Counts(0, 0) && r.amountPaid[firm] == 0
  {
    var k := OrderKey(firm, sym);
    if side == 'B' then
      InitIfAbsent(Register(s.(buyBook := s.buyBook[k := p]), firm), firm)
    else
      var reset := s.(sellBook := s.sellBook[k := p],
                      orders := s.orders[firm := Counts(0, 0)],
                      amountPaid := s.amountPaid[firm := 0]);
      InitIfAbsent(Register(reset, firm), firm)
  }

  /**
    newOrder: an accepted order is placed and matched at once; an order on an
    unknown side, or for a key already resting on either side, is ignored.
   */
  function NewOrder(s: State, firm: FirmId, sym: Symbol, side: char, p: Price): (r: State)
    ensures !Accepts(s, firm, sym, side) ==> r == s
    ensures r.ids == if Accepts(s, firm, sym, side) && firm !in s.seen then s.ids + [firm] else s.ids
    ensures Accepts(s, firm, sym, side) ==> firm in r.seen
  {
    if Accepts(s, firm, sym, side) then Match(Placed(s, firm, sym, side, p), firm, sym, side) else s
  }

  /**
    modifyOrder: a resting order (looked for on the buy side first) takes the
    new price on the same side and the same key and is matched again; a key on
    neither side is ignored.
   */
  function ModifyOrder(s: State, firm: FirmId, sym: Symbol, p: Price): (r: State)
    ensures OrderKey(firm, sym) !in s.buyBook && OrderKey(firm, sym) !in s.sellBook ==> r == s
    ensures r.ids == s.ids && r.orders.Keys == s.orders.Keys && r.amountPaid.Keys == s.amountPaid.Keys
  {
    var k := OrderKey(firm, sym);
    if k in s.buyBook then Match(s.(buyBook := s.buyBook[k := p]), firm, sym, 'B')
    else if k in s.sellBook then Match(s.(sellBook := s.sellBook[k := p]), firm, sym, 'S')
    else s
  }

  /**
    cancelOrder: removes the key from the buy side if it rests there, otherwise
    from the sell side; nothing else changes.
   */
  function CancelOrder(s: State, firm: FirmId, sym: Symbol): (r: State)
    ensures r.buyBook == s.buyBook - {OrderKey(firm, sym)}
    ensures OrderKey(firm, sym) in s.buyBook ==> r.sellBook == s.sellBook
    ensures OrderKey(firm, sym) !in s.buyBook ==> r.sellBook == s.sellBook - {OrderKey(firm, sym)}
    ensures OrderKey(firm, sym) !in s.buyBook && OrderKey(firm, sym) !in s.sellBook ==> r == s
    ensures r.orders == s.orders && r.amountPaid == s.amountPaid && r.ids == s.ids && r.seen == s.seen
  {
    var k := OrderKey(firm, sym);
    if k in s.buyBook then s.(buyBook := s.buyBook - {k})
    else if k in s.sellBook then s.(sellBook := s.sellBook - {k})
    else s
  }

  /** The `orders` map once each firm of `ids` has had its resting orders on both sides added to its live counter. */
  function AddLive(orders: map<FirmId, Counts>, ids: seq<FirmId>, buy: Book, sell: Book): (r: map<FirmId, Counts>)
    ensures r.Keys == orders.Keys
  {
    map f | f in orders ::
      if f in ids then orders[f].(live := orders[f].live + Resting(buy, f) + Resting(sell, f)) else orders[f]
  }

  /** liveOrders: adds to every listed firm's live counter the number of its resting orders. */
  function LiveOrders(s: State): (r: State)
    ensures r.buyBook == s.buyBook && r.sellBook == s.sellBook && r.amountPaid == s.amountPaid
    ensures r.ids == s.ids && r.seen == s.seen && r.orders.Keys == s.orders.Keys
    ensures forall f :: f in r.orders ==> r.orders[f].fills == s.orders[f].fills
  {
    s.(orders := AddLive(s.orders, s.ids, s.buyBook, s.sellBook))
  }

  // ---------------------------------------------------------------------------
  // Matching

  /** A firm never trades with itself: its own key is not on the side it matches against. */
  lemma NoSelfTrade(s: State, firm: FirmId, sym: Symbol, side: char)
    requires Valid(s) && (side == 'B' || side == 'S') && OrderKey(firm, sym) in Own(s, side)
    ensures forall t :: t in Trades(s, firm, sym, side) ==> t.buyer != t.seller
    ensures !Crossing(Counter(s, side), sym, side, AggressorPrice(s, firm, sym, side), firm)
  {
    var p := AggressorPrice(s, firm, sym, side);
    ScanSound(s.ids, Counter(s, side), sym, firm, side, p);
  }

  /** Matching only removes orders, so the invariant survives it. */
  lemma MatchValid(s: State, firm: FirmId, sym: Symbol, side: char)
    requires Valid(s)
    requires side == 'B' ==> OrderKey(firm, sym) in s.buyBook
    requires side == 'S' ==> OrderKey(firm, sym) in s.sellBook
    ensures Valid(Match(s, firm, sym, side))
  {
  }

  /**
    What a match leaves in the books: every resting counter-order for the
    symbol that the aggressor crosses is gone and every other one stays; the
    aggressor's order leaves its own book exactly when there was at least one
    such counter-order; the rest of its own book is untouched.
   */
  lemma MatchBooks(s: State, firm: FirmId, sym: Symbol, side: char)
    requires Valid(s) && (side == 'B' || side == 'S') && OrderKey(firm, sym) in Own(s, side)
    ensures var r := Match(s, firm, sym, side);
            var p := AggressorPrice(s, firm, sym, side);
            && (forall k :: k in Counter(r, side) <==>
                  k in Counter(s, side) && !(k.symbol == sym && Crosses(side, p, Counter(s, side)[k])))
            && (OrderKey(firm, sym) in Own(r, side) <==> CrossingKeys(Counter(s, side), sym, side, p) == {})
            && (forall k :: k != OrderKey(firm, sym) ==> (k in Own(r, side) <==> k in Own(s, side)))
  {
    var p := AggressorPrice(s, firm, sym, side);
    var counter := Counter(s, side);
    assert forall k :: k in counter ==> k.firm in s.ids;
    ScanEmpty(s.ids, counter, sym, firm, side, p);
    UnmatchedListed(counter, s.ids, sym, side, p);
    MatchSides(s, firm, sym, side);
  }

  /** The two sides after a match, named by the aggressor's side. */
  lemma MatchSides(s: State, firm: FirmId, sym: Symbol, side: char)
    requires (side == 'B' || side == 'S') && OrderKey(firm, sym) in Own(s, side)
    ensures var r := Match(s, firm, sym, side);
            && Own(r, side) == (if Trades(s, firm, sym, side) == [] then Own(s, side)
                                else Own(s, side) - {OrderKey(firm, sym)})
            && Counter(r, side)
               == Unmatched(Counter(s, side), s.ids, sym, side, AggressorPrice(s, firm, sym, side))
  {
  }

  /** The number of trades one match makes is the number of crossing counter-orders. */
  lemma TradesCount(s: State, firm: FirmId, sym: Symbol, side: char)
    requires Valid(s) && (side == 'B' || side == 'S') && OrderKey(firm, sym) in Own(s, side)
    ensures |Trades(s, firm, sym, side)|
         == |CrossingKeys(Counter(s, side), sym, side, AggressorPrice(s, firm, sym, side))|
  {
    var p := AggressorPrice(s, firm, sym, side);
    var K := CrossingKeys(Counter(s, side), sym, side, p);
    ScanCount(s.ids, Counter(s, side), sym, firm, side, p);
    assert (set k | k in K && k.firm in s.ids) == K;
  }

  /** One firm's fills after a scan: the aggressor one per trade, a counter-party one if it crossed. */
  lemma {:induction false} ScanFills(ids: seq<FirmId>, counter: Book, sym: Symbol, firm: FirmId,
                                     side: char, p: Price, f: FirmId)
    requires Distinct(ids)
    requires !Crossing(counter, sym, side, p, firm)
    ensures var T := Scan(ids, counter, sym, firm, side, p);
            FillsOf(T, f) == (if f == firm then |T| else 0)
                             + (if f in ids && Crossing(counter, sym, side, p, f) then 1 else 0)
    decreases |ids|
  {
    if ids != [] {
      var init := ids[..|ids| - 1];
      var x := ids[|ids| - 1];
      assert ids == init + [x];
      assert Distinct(init) && x !in init;
      assert (f in ids) == (f in init || f == x);
      ScanFills(init, counter, sym, firm, side, p, f);
      ScanSnoc(init, x, counter, sym, firm, side, p);
      var T0 := Scan(init, counter, sym, firm, side, p);
      if Crossing(counter, sym, side, p, x) {
        var t := TradeWith(firm, side, p, x, counter[OrderKey(x, sym)]);
        assert Scan(ids, counter, sym, firm, side, p) == T0 + [t];
        FillsOfSnoc(T0, t, f);
        assert TradeFills(t, f) == (if f == firm then 1 else 0) + (if f == x then 1 else 0);
      } else {
        assert Scan(ids, counter, sym, firm, side, p) == T0;
      }
    }
  }

  /**
    One firm's cash after a scan: a buy aggressor pays the total, a sell
    aggressor receives it; a crossing counter-party receives its ask or pays
    the aggressor's price.
   */
  lemma {:induction false} ScanCash(ids: seq<FirmId>, counter: Book, sym: Symbol, firm: FirmId,
                                    side: char, p: Price, f: FirmId)
    requires Distinct(ids)
    requires !Crossing(counter, sym, side, p, firm)
    ensures var T := Scan(ids, counter, sym, firm, side, p);
            CashOf(T, f) == (if f == firm then (if side == 'B' then -Total(T) else Total(T)) else 0)
                            + (if !(f in ids && Crossing(counter, sym, side, p, f)) then 0
                               else if side == 'B' then counter[OrderKey(f, sym)] else -p)
    decreases |ids|
  {
    if ids != [] {
      var init := ids[..|ids| - 1];
      var x := ids[|ids| - 1];
      assert ids == init + [x];
      assert Distinct(init) && x !in init;
      assert (f in ids) == (f in init || f == x);
      ScanCash(init, counter, sym, firm, side, p, f);
      ScanSnoc(init, x, counter, sym, firm, side, p);
      var T0 := Scan(init, counter, sym, firm, side, p);
      if Crossing(counter, sym, side, p, x) {
        var t := TradeWith(firm, side, p, x, counter[OrderKey(x, sym)]);
        assert Scan(ids, counter, sym, firm, side, p) == T0 + [t];
        FillsOfSnoc(T0, t, f);
      } else {
        assert Scan(ids, counter, sym, firm, side, p) == T0;
      }
    }
  }

  /** A sell aggressor trades every time at its own price. */
  lemma {:induction false} ScanTotalSell(ids: seq<FirmId>, counter: Book, sym: Symbol, firm: FirmId, p: Price)
    ensures var T := Scan(ids, counter, sym, firm, 'S', p);
            Total(T) == |T| * p
    decreases |ids|
  {
    if ids != [] {
      var init := ids[..|ids| - 1];
      var x := ids[|ids| - 1];
      assert ids == init + [x];
      ScanTotalSell(init, counter, sym, firm, p);
      ScanSnoc(init, x, counter, sym, firm, 'S', p);
      var T0 := Scan(init, counter, sym, firm, 'S', p);
      if Crossing(counter, sym, 'S', p, x) {
        var t := TradeWith(firm, 'S', p, x, counter[OrderKey(x, sym)]);
        assert Scan(ids, counter, sym, firm, 'S', p) == T0 + [t];
        FillsOfSnoc(T0, t, firm);
        assert (|T0| + 1) * p == |T0| * p + p;
      } else {
        assert Scan(ids, counter, sym, firm, 'S', p) == T0;
      }
    }
  }

  /**
    Fills after a match: the aggressor gains one per crossing counter-order,
    every crossing counter-party gains exactly one, every other firm none.
   */
  lemma MatchFills(s: State, firm: FirmId, sym: Symbol, side: char)
    requires Valid(s) && (side == 'B' || side == 'S') && OrderKey(firm, sym) in Own(s, side)
    ensures var r := Match(s, firm, sym, side);
            var p := AggressorPrice(s, firm, sym, side);
            && r.orders[firm].fills
               == s.orders[firm].fills + |CrossingKeys(Counter(s, side), sym, side, p)|
            && (forall f :: f in s.orders && f != firm ==>
                  r.orders[f].fills == s.orders[f].fills + if Crossing(Counter(s, side), sym, side, p, f) then 1 else 0)
  {
    var p := AggressorPrice(s, firm, sym, side);
    NoSelfTrade(s, firm, sym, side);
    TradesCount(s, firm, sym, side);
    ScanFills(s.ids, Counter(s, side), sym, firm, side, p, firm);
    forall f | f in s.orders && f != firm
      ensures Match(s, firm, sym, side).orders[f].fills
              == s.orders[f].fills + if Crossing(Counter(s, side), sym, side, p, f) then 1 else 0
    {
      ScanFills(s.ids, Counter(s, side), sym, firm, side, p, f);
    }
  }

  /**
    Cash after a match, always at the sell order's price. A buy aggressor pays
    each crossing ask's own price to its seller; a sell aggressor receives its
    own price from each crossing bidder. Firms that did not trade are untouched.
   */
  lemma MatchCash(s: State, firm: FirmId, sym: Symbol, side: char)
    requires Valid(s) && (side == 'B' || side == 'S') && OrderKey(firm, sym) in Own(s, side)
    ensures var r := Match(s, firm, sym, side);
            var p := AggressorPrice(s, firm, sym, side);
            var counter := Counter(s, side);
            && (side == 'B' ==> r.amountPaid[firm] == s.amountPaid[firm] - Total(Trades(s, firm, sym, side)))
            && (side == 'S' ==> r.amountPaid[firm]
                                == s.amountPaid[firm] + |CrossingKeys(counter, sym, side, p)| * p)
            && (forall f :: f in s.amountPaid && f != firm ==>
                  r.amountPaid[f] == s.amountPaid[f]
                                     + if !Crossing(counter, sym, side, p, f) then 0
                                       else if side == 'B' then counter[OrderKey(f, sym)] else -p)
  {
    var p := AggressorPrice(s, firm, sym, side);
    NoSelfTrade(s, firm, sym, side);
    TradesCount(s, firm, sym, side);
    ScanCash(s.ids, Counter(s, side), sym, firm, side, p, firm);
    if side == 'S' {
      ScanTotalSell(s.ids, Counter(s, side), sym, firm, p);
    }
    forall f | f in s.amountPaid && f != firm
      ensures Match(s, firm, sym, side).amountPaid[f]
              == s.amountPaid[f] + if !Crossing(Counter(s, side), sym, side, p, f) then 0
                                   else if side == 'B' then Counter(s, side)[OrderKey(f, sym)] else -p
    {
      ScanCash(s.ids, Counter(s, side), sym, firm, side, p, f);
    }
  }

  /** Matching moves cash between firms and never creates or destroys it. */
  lemma MatchConservesCash(s: State, firm: FirmId, sym: Symbol, side: char)
    requires Valid(s)
    requires side == 'B' ==> OrderKey(firm, sym) in s.buyBook
    requires side == 'S' ==> OrderKey(firm, sym) in s.sellBook
    ensures CashSum(s.ids, Match(s, firm, sym, side).amountPaid) == CashSum(s.ids, s.amountPaid)
  {
    if side == 'B' || side == 'S' {
      var p := AggressorPrice(s, firm, sym, side);
      var T := Trades(s, firm, sym, side);
      ScanSound(s.ids, Counter(s, side), sym, firm, side, p);
      assert firm in s.ids;
      SettleConserves(s.ids, s.amountPaid, T);
    }
  }

  // ---------------------------------------------------------------------------
  // newOrder, modifyOrder, cancelOrder, liveOrders

  /** Registering a firm keeps `ids` free of repeats and `seen` equal to its set. */
  lemma RegisterKeeps(s: State, firm: FirmId)
    requires Distinct(s.ids) && s.seen == (set f | f in s.ids)
    ensures var r := Register(s, firm);
            Distinct(r.ids) && r.seen == (set f | f in r.ids) && r.seen == s.seen + {firm}
  {
    if firm !in s.seen {
      var r := Register(s, firm);
      assert firm !in s.ids;
      assert (set f | f in r.ids) == (set f | f in s.ids) + {firm};
    }
  }

  /** The state handed to matching satisfies the invariant. */
  lemma PlacedValid(s: State, firm: FirmId, sym: Symbol, side: char, p: Price)
    requires Valid(s) && Accepts(s, firm, sym, side)
    ensures Valid(Placed(s, firm, sym, side, p))
  {
    if side == 'B' {
      PlacedBuyValid(s, firm, sym, p);
    } else {
      PlacedSellValid(s, firm, sym, p);
    }
  }

  lemma PlacedBuyValid(s: State, firm: FirmId, sym: Symbol, p: Price)
    requires Valid(s) && Accepts(s, firm, sym, 'B')
    ensures Valid(Placed(s, firm, sym, 'B', p))
  {
    var s1 := s.(buyBook := s.buyBook[OrderKey(firm, sym) := p]);
    RestedValid(s1, firm);
  }

  lemma PlacedSellValid(s: State, firm: FirmId, sym: Symbol, p: Price)
    requires Valid(s) && Accepts(s, firm, sym, 'S')
    ensures Valid(Placed(s, firm, sym, 'S', p))
  {
    var s1 := s.(sellBook := s.sellBook[OrderKey(firm, sym) := p],
                 orders := s.orders[firm := Counts(0, 0)],
                 amountPaid := s.amountPaid[firm := 0]);
    RestedValid(s1, firm);
  }

  /**
    A state whose only defects are that `firm` may be unregistered and may
    lack its ledger entries is made valid by registering and initialising it.
   */
  lemma RestedValid(s: State, firm: FirmId)
    requires forall k :: k in s.buyBook ==> k !in s.sellBook
    requires Distinct(s.ids) && s.seen == (set f | f in s.ids)
    requires forall k :: k in s.buyBook ==> k.firm in s.seen + {firm}
    requires forall k :: k in s.sellBook ==> k.firm in s.seen + {firm}
    requires s.orders.Keys + {firm} == s.seen + {firm} && s.amountPaid.Keys + {firm} == s.seen + {firm}
    requires firm in s.orders <==> firm in s.amountPaid
    ensures Valid(InitIfAbsent(Register(s, firm), firm))
  {
    RegisterKeeps(s, firm);
    var r := Register(s, firm);
    assert r.orders.Keys + {firm} == r.seen && r.amountPaid.Keys + {firm} == r.seen;
    LedgerEntriesValid(r, firm);
  }

  /** Once the ledger entries of the one firm missing them are added, the invariant holds. */
  lemma LedgerEntriesValid(s: State, firm: FirmId)
    requires forall k :: k in s.buyBook ==> k !in s.sellBook
    requires Distinct(s.ids) && s.seen == (set f | f in s.ids)
    requires forall k :: k in s.buyBook ==> k.firm in s.seen
    requires forall k :: k in s.sellBook ==> k.firm in s.seen
    requires firm in s.seen
    requires s.orders.Keys + {firm} == s.seen && s.amountPaid.Keys + {firm} == s.seen
    requires firm in s.orders <==> firm in s.amountPaid
    ensures Valid(InitIfAbsent(s, firm))
  {
  }

  lemma NewOrderValid(s: State, firm: FirmId, sym: Symbol, side: char, p: Price)
    requires Valid(s)
    ensures Valid(NewOrder(s, firm, sym, side, p))
  {
    if Accepts(s, firm, sym, side) {
      PlacedValid(s, firm, sym, side, p);
      MatchValid(Placed(s, firm, sym, side, p), firm, sym, side);
    }
  }

  /**
    An accepted buy rests at its price unless some ask for the symbol is at or
    below it, in which case it is filled once per such ask and leaves the book.
    The firm keeps its earlier fills and cash, and pays each crossing ask its
    own price.
   */
  lemma NewBuyOrder(s: State, firm: FirmId, sym: Symbol, p: Price)
    requires Valid(s) && Accepts(s, firm, sym, 'B')
    ensures var r := NewOrder(s, firm, sym, 'B', p);
            var n := |CrossingKeys(s.sellBook, sym, 'B', p)|;
            && (OrderKey(firm, sym) in r.buyBook <==> n == 0)
            && (OrderKey(firm, sym) in r.buyBook ==> r.buyBook[OrderKey(firm, sym)] == p)
            && OrderKey(firm, sym) !in r.sellBook
            && r.orders[firm].fills == (if firm in s.orders then s.orders[firm].fills else 0) + n
            && r.amountPaid[firm] == (if firm in s.amountPaid then s.amountPaid[firm] else 0)
                                     - Total(Trades(Placed(s, firm, sym, 'B', p), firm, sym, 'B'))
  {
    var m := Placed(s, firm, sym, 'B', p);
    PlacedValid(s, firm, sym, 'B', p);
    MatchBooks(m, firm, sym, 'B');
    MatchFills(m, firm, sym, 'B');
    MatchCash(m, firm, sym, 'B');
  }

  /**
    An accepted sell first wipes the firm's fill count and cash, whatever they
    were: afterwards they hold only what this order's own matches brought, one
    fill and its own price per crossing bid.
   */
  lemma NewSellOrderResets(s: State, firm: FirmId, sym: Symbol, p: Price)
    requires Valid(s) && Accepts(s, firm, sym, 'S')
    ensures var r := NewOrder(s, firm, sym, 'S', p);
            var n := |CrossingKeys(s.buyBook, sym, 'S', p)|;
            && r.orders[firm] == Counts(0, n)
            && r.amountPaid[firm] == n * p
            && (OrderKey(firm, sym) in r.sellBook <==> n == 0)
  {
    PlacedSell(s, firm, sym, p);
    var m := Placed(s, firm, sym, 'S', p);
    MatchFills(m, firm, sym, 'S');
    MatchCash(m, firm, sym, 'S');
    MatchBooks(m, firm, sym, 'S');
  }

  /** The state a sell order is matched in: valid, with the firm's entries reset and the buy side as it was. */
  lemma PlacedSell(s: State, firm: FirmId, sym: Symbol, p: Price)
    requires Valid(s) && Accepts(s, firm, sym, 'S')
    ensures var m := Placed(s, firm, sym, 'S', p);
            && Valid(m) && OrderKey(firm, sym) in m.sellBook
            && NewOrder(s, firm, sym, 'S', p) == Match(m, firm, sym, 'S')
            && AggressorPrice(m, firm, sym, 'S') == p && Counter(m, 'S') == s.buyBook
            && m.orders[firm] == Counts(0, 0) && m.amountPaid[firm] == 0
  {
    PlacedValid(s, firm, sym, 'S', p);
  }

  lemma ModifyValid(s: State, firm: FirmId, sym: Symbol, p: Price)
    requires Valid(s)
    ensures Valid(ModifyOrder(s, firm, sym, p))
  {
  }

  /**
    A modified order stays on its side under its key at the new price, unless
    the new price crosses a resting counter-order, in which case it is matched
    away; it never appears on the other side.
   */
  lemma ModifyKeepsSide(s: State, firm: FirmId, sym: Symbol, p: Price)
    requires Valid(s)
    requires OrderKey(firm, sym) in s.buyBook || OrderKey(firm, sym) in s.sellBook
    ensures var k := OrderKey(firm, sym);
            var side := if k in s.buyBook then 'B' else 'S';
            var r := ModifyOrder(s, firm, sym, p);
            && k !in Counter(r, side)
            && (k in Own(r, side) ==> Own(r, side)[k] == p)
            && (k in Own(r, side) <==> CrossingKeys(Counter(s, side), sym, side, p) == {})
  {
    var k := OrderKey(firm, sym);
    var side := if k in s.buyBook then 'B' else 'S';
    var m := if side == 'B' then s.(buyBook := s.buyBook[k := p]) else s.(sellBook := s.sellBook[k := p]);
    assert Valid(m);
    MatchBooks(m, firm, sym, side);
  }

  /** Cancelling takes the key off both sides and leaves every other order and the ledger as they were. */
  lemma CancelRemoves(s: State, firm: FirmId, sym: Symbol)
    requires Valid(s)
    ensures var r := CancelOrder(s, firm, sym);
            && Valid(r)
            && OrderKey(firm, sym) !in r.buyBook && OrderKey(firm, sym) !in r.sellBook
            && (forall k :: k != OrderKey(firm, sym) ==> (k in r.buyBook <==> k in s.buyBook))
            && (forall k :: k != OrderKey(firm, sym) ==> (k in r.sellBook <==> k in s.sellBook))
            && SubBook(r.buyBook, s.buyBook) && SubBook(r.sellBook, s.sellBook)
  {
  }

  /** liveOrders adds to each listed firm's live counter its resting orders on both sides and changes nothing else. */
  lemma LiveOrdersCount(s: State)
    requires Valid(s)
    ensures var r := LiveOrders(s);
            && Valid(r)
            && (forall f :: f in s.ids ==>
                  r.orders[f] == Counts(s.orders[f].live + Resting(s.buyBook, f) + Resting(s.sellBook, f),
                                        s.orders[f].fills))
  {
  }

  /** Counting one more firm's resting orders updates only that firm's live counter. */
  lemma AddLiveSnoc(orders: map<FirmId, Counts>, ids: seq<FirmId>, f: FirmId, buy: Book, sell: Book)
    requires f in orders && f !in ids
    ensures f in AddLive(orders, ids, buy, sell)
    ensures AddLive(orders, ids + [f], buy, sell)
         == Counted(Counted(AddLive(orders, ids, buy, sell), f, Resting(buy, f)), f, Resting(sell, f))
  {
  }

  /** liveOrders is not idempotent: a second call adds the resting count again. */
  lemma LiveOrdersTwice(s: State)
    requires Valid(s)
    ensures var r := LiveOrders(LiveOrders(s));
            forall f :: f in s.ids ==>
              r.orders[f].live == s.orders[f].live + 2 * (Resting(s.buyBook, f) + Resting(s.sellBook, f))
  {
  }

  // ---------------------------------------------------------------------------
  // Runs of instructions

  /** One instruction of a run. */
  datatype Op =
    | New(firm: FirmId, sym: Symbol, side: char, price: Price)
    | Modify(firm: FirmId, sym: Symbol, price: Price)
    | Cancel(firm: FirmId, sym: Symbol)

  function Step(s: State, op: Op): State
  {
    match op
    case New(firm, sym, side, price) => NewOrder(s, firm, sym, side, price)
    case Modify(firm, sym, price) => ModifyOrder(s, firm, sym, price)
    case Cancel(firm, sym) => CancelOrder(s, firm, sym)
  }

  function Run(s: State, ops: seq<Op>): State
    decreases |ops|
  {
    if ops == [] then s else Run(Step(s, ops[0]), ops[1..])
  }

  /** No trading instruction writes a live counter other than to zero it. */
  ghost predicate LiveZero(s: State)
  {
    forall f :: f in s.orders ==> s.orders[f].live == 0
  }

  /**
    newOrder writes a live counter only to create or reset it at zero: every
    counter afterwards is zero or what it was before. So all-zero counters stay zero.
   */
  lemma NewOrderLiveZero(s: State, firm: FirmId, sym: Symbol, side: char, p: Price)
    ensures var r := NewOrder(s, firm, sym, side, p);
            forall f :: f in r.orders ==> r.orders[f].live == 0 || (f in s.orders && r.orders[f].live == s.orders[f].live)
    ensures LiveZero(s) ==> LiveZero(NewOrder(s, firm, sym, side, p))
  {
    if Accepts(s, firm, sym, side) {
      var m := Placed(s, firm, sym, side, p);
      assert forall f :: f in m.orders ==> m.orders[f].live == 0 || (f in s.orders && m.orders[f].live == s.orders[f].live);
    }
  }

  lemma StepKeeps(s: State, op: Op)
    requires Valid(s)
    ensures Valid(Step(s, op))
    ensures LiveZero(s) ==> LiveZero(Step(s, op))
  {
    match op
    case New(firm, sym, side, price) =>
      NewOrderValid(s, firm, sym, side, price);
      if LiveZero(s) {
        NewOrderLiveZero(s, firm, sym, side, price);
      }
    case Modify(firm, sym, price) =>
      ModifyValid(s, firm, sym, price);
    case Cancel(firm, sym) =>
  }

  /**
    From an empty engine, every run of instructions keeps the invariant (in
    particular, no key ever rests on both sides) and leaves every live counter
    at zero.
   */
  lemma {:induction false} RunKeeps(s: State, ops: seq<Op>)
    requires Valid(s) && LiveZero(s)
    ensures Valid(Run(s, ops)) && LiveZero(Run(s, ops))
    decreases |ops|
  {
    if ops != [] {
      StepKeeps(s, ops[0]);
      RunKeeps(Step(s, ops[0]), ops[1..]);
    }
  }

  /**
    At the end of a run from an empty engine, one liveOrders call makes every
    firm's live counter equal to its number of resting orders on both sides.
   */
  lemma FinalLiveCounts(ops: seq<Op>)
    ensures var s := Run(Empty, ops);
            var r := LiveOrders(s);
            && Valid(s)
            && (forall k :: k in s.buyBook ==> k !in s.sellBook)
            && (forall f :: f in s.ids ==> r.orders[f].live == Resting(s.buyBook, f) + Resting(s.sellBook, f))
  {
    assert Valid(Empty);
    RunKeeps(Empty, ops);
    LiveOrdersCount(Run(Empty, ops));
  }
}
