/**
  The per-firm ledger: the `orders` entry (live count, fill count) and the net
  cash paid, and how a run of trades changes them.
 */
module Ledger {
  import opened Books

  /** A firm's `orders` entry: its live-order counter and its fill counter. */
  datatype Counts = Counts(live: int, fills: int)

  /** Fills a trade gives firm `f`: one per side of the trade it is on. */
  function TradeFills(t: Trade, f: FirmId): nat
  {
    (if t.buyer == f then 1 else 0) + (if t.seller == f then 1 else 0)
  }

  /** Cash a trade moves into firm `f`'s account: the seller receives the price, the buyer pays it. */
  function TradeCash(t: Trade, f: FirmId): int
  {
    (if t.seller == f then t.price else 0) - (if t.buyer == f then t.price else 0)
  }

  function FillsOf(trades: seq<Trade>, f: FirmId): nat
    decreases |trades|
  {
    if trades == [] then 0
    else FillsOf(trades[..|trades| - 1], f) + TradeFills(trades[|trades| - 1], f)
  }

  function CashOf(trades: seq<Trade>, f: FirmId): int
    decreases |trades|
  {
    if trades == [] then 0
    else CashOf(trades[..|trades| - 1], f) + TradeCash(trades[|trades| - 1], f)
  }

  /** The sum of the trade prices. */
  function Total(trades: seq<Trade>): int
    decreases |trades|
  {
    if trades == [] then 0 else Total(trades[..|trades| - 1]) + trades[|trades| - 1].price
  }

  /** The `orders` map once every trade has counted a fill for each of its two sides. */
  function AddFills(orders: map<FirmId, Counts>, trades: seq<Trade>): (r: map<FirmId, Counts>)
    ensures r.Keys == orders.Keys
    ensures forall f :: f in r ==> r[f].live == orders[f].live && r[f].fills >= orders[f].fills
  {
    map f | f in orders :: orders[f].(fills := orders[f].fills + FillsOf(trades, f))
  }

  /** The `amountPaid` map once every trade has been paid for. */
  function Settle(cash: map<FirmId, Price>, trades: seq<Trade>): (r: map<FirmId, Price>)
    ensures r.Keys == cash.Keys
  {
    map f | f in cash :: cash[f] + CashOf(trades, f)
  }

  lemma FillsOfSnoc(trades: seq<Trade>, t: Trade, f: FirmId)
    ensures FillsOf(trades + [t], f) == FillsOf(trades, f) + TradeFills(t, f)
    ensures CashOf(trades + [t], f) == CashOf(trades, f) + TradeCash(t, f)
    ensures Total(trades + [t]) == Total(trades) + t.price
  {
    assert (trades + [t])[..|trades|] == trades;
  }

  /** Bumps the fill counter of `f`. */
  function Filled(orders: map<FirmId, Counts>, f: FirmId): map<FirmId, Counts>
    requires f in orders
  {
    orders[f := orders[f].(fills := orders[f].fills + 1)]
  }

  /** Adds `n` to the live counter of `f`. */
  function Counted(orders: map<FirmId, Counts>, f: FirmId, n: int): map<FirmId, Counts>
    requires f in orders
  {
    orders[f := orders[f].(live := orders[f].live + n)]
  }

  /** Adds `amount` to the cash of `f`. */
  function Paid(cash: map<FirmId, Price>, f: FirmId, amount: int): map<FirmId, Price>
    requires f in cash
  {
    cash[f := cash[f] + amount]
  }

  /** One more trade bumps the fill counter of each of its two sides, in either order. */
  lemma AddFillsSnoc(orders: map<FirmId, Counts>, trades: seq<Trade>, t: Trade, first: FirmId, second: FirmId)
    requires (first == t.buyer && second == t.seller) || (first == t.seller && second == t.buyer)
    requires first in orders && second in orders
    ensures Filled(Filled(AddFills(orders, trades), first), second) == AddFills(orders, trades + [t])
  {
    forall f | f in orders
      ensures AddFills(orders, trades + [t])[f] == Filled(Filled(AddFills(orders, trades), first), second)[f]
    {
      FillsOfSnoc(trades, t, f);
    }
  }

  /**
    One more trade debits the buyer and credits the seller with its price,
    whichever of the two is written first.
   */
  lemma SettleSnoc(cash: map<FirmId, Price>, trades: seq<Trade>, t: Trade, first: FirmId, second: FirmId,
                   amount: int, back: int)
    requires (first == t.seller && second == t.buyer && amount == t.price)
          || (first == t.buyer && second == t.seller && amount == -t.price)
    requires back == -amount
    requires first in cash && second in cash
    ensures Paid(Paid(Settle(cash, trades), first, amount), second, back) == Settle(cash, trades + [t])
  {
    forall f | f in cash
      ensures Settle(cash, trades + [t])[f] == Paid(Paid(Settle(cash, trades), first, amount), second, back)[f]
    {
      FillsOfSnoc(trades, t, f);
    }
  }

  // ---------------------------------------------------------------------------
  // Cash conservation: what one firm pays, another receives.

  /** The amount held by `f`, zero when it has no entry. */
  function Cash(cash: map<FirmId, Price>, f: FirmId): int
  {
    if f in cash then cash[f] else 0
  }

  /** The total cash of the firms in `ids`. */
  function CashSum(ids: seq<FirmId>, cash: map<FirmId, Price>): int
    decreases |ids|
  {
    if ids == [] then 0 else CashSum(ids[..|ids| - 1], cash) + Cash(cash, ids[|ids| - 1])
  }

  /** The net cash the trades move into the firms of `ids`. */
  function DeltaSum(ids: seq<FirmId>, trades: seq<Trade>): int
    decreases |ids|
  {
    if ids == [] then 0 else DeltaSum(ids[..|ids| - 1], trades) + CashOf(trades, ids[|ids| - 1])
  }

  /** The net cash one trade moves into the firms of `ids`. */
  function TradeSum(ids: seq<FirmId>, t: Trade): int
    decreases |ids|
  {
    if ids == [] then 0 else TradeSum(ids[..|ids| - 1], t) + TradeCash(t, ids[|ids| - 1])
  }

  function Occurrences(ids: seq<FirmId>, x: FirmId): nat
    decreases |ids|
  {
    if ids == [] then 0 else Occurrences(ids[..|ids| - 1], x) + if ids[|ids| - 1] == x then 1 else 0
  }

  lemma {:induction false} OccurrencesDistinct(ids: seq<FirmId>, x: FirmId)
    requires Distinct(ids)
    ensures Occurrences(ids, x) == if x in ids then 1 else 0
    decreases |ids|
  {
    if ids != [] {
      var init := ids[..|ids| - 1];
      assert ids == init + [ids[|ids| - 1]];
      OccurrencesDistinct(init, x);
    }
  }

  /** Settling the trades adds to the firms' total exactly the net cash the trades move into them. */
  lemma {:induction false} CashSumSettle(ids: seq<FirmId>, cash: map<FirmId, Price>, trades: seq<Trade>)
    requires forall f :: f in ids ==> f in cash
    ensures CashSum(ids, Settle(cash, trades)) == CashSum(ids, cash) + DeltaSum(ids, trades)
    decreases |ids|
  {
    if ids != [] {
      var init := ids[..|ids| - 1];
      assert ids == init + [ids[|ids| - 1]];
      CashSumSettle(init, cash, trades);
    }
  }

  lemma {:induction false} DeltaSumSnoc(ids: seq<FirmId>, trades: seq<Trade>, t: Trade)
    ensures DeltaSum(ids, trades + [t]) == DeltaSum(ids, trades) + TradeSum(ids, t)
    decreases |ids|
  {
    if ids != [] {
      DeltaSumSnoc(ids[..|ids| - 1], trades, t);
      FillsOfSnoc(trades, t, ids[|ids| - 1]);
    }
  }

  /** One trade moves its price out of the buyer's count and into the seller's. */
  lemma {:induction false} TradeSumOccurrences(ids: seq<FirmId>, t: Trade)
    ensures TradeSum(ids, t) == t.price * (Occurrences(ids, t.seller) - Occurrences(ids, t.buyer))
    decreases |ids|
  {
    if ids != [] {
      TradeSumOccurrences(ids[..|ids| - 1], t);
    }
  }

  /** Among firms listed once each, with every buyer and seller listed, trades move no net cash. */
  lemma {:induction false} DeltaSumZero(ids: seq<FirmId>, trades: seq<Trade>)
    requires Distinct(ids)
    requires forall t :: t in trades ==> t.buyer in ids && t.seller in ids
    ensures DeltaSum(ids, trades) == 0
    decreases |trades|
  {
    if trades == [] {
      DeltaSumEmpty(ids);
    } else {
      var init := trades[..|trades| - 1];
      var t := trades[|trades| - 1];
      assert trades == init + [t];
      DeltaSumZero(ids, init);
      DeltaSumSnoc(ids, init, t);
      TradeSumOccurrences(ids, t);
      OccurrencesDistinct(ids, t.buyer);
      OccurrencesDistinct(ids, t.seller);
    }
  }

  lemma {:induction false} DeltaSumEmpty(ids: seq<FirmId>)
    ensures DeltaSum(ids, []) == 0
    decreases |ids|
  {
    if ids != [] {
      DeltaSumEmpty(ids[..|ids| - 1]);
    }
  }

  /**
    Settling trades among the listed firms leaves their total cash unchanged:
    every amount taken from a buyer is credited to a seller.
   */
  lemma SettleConserves(ids: seq<FirmId>, cash: map<FirmId, Price>, trades: seq<Trade>)
    requires Distinct(ids)
    requires forall f :: f in ids ==> f in cash
    requires forall t :: t in trades ==> t.buyer in ids && t.seller in ids
    ensures CashSum(ids, Settle(cash, trades)) == CashSum(ids, cash)
  {
    CashSumSettle(ids, cash, trades);
    DeltaSumZero(ids, trades);
  }
}
