# Matching engine: a verified model

This project models the `MatchingEngine` class of `matchingEngine.cpp`. It is a
single-threaded limit-order book for unit-size orders. Firms place, re-price and
cancel one order per (firm, symbol) key. Every new or re-priced order is matched
at once against the opposite side of the book.

The model has four modules.

- **Books**: order keys and the two sides of the book. It holds the crossing
  rule: a bid crosses an ask at or below it, and an ask crosses a bid at or
  above it. It also holds `Scan`, the trades one pass over the firm list makes
  as a pure function, with its soundness, completeness and counting lemmas.
- **Ledger**: each firm's `orders` entry (live counter, fill counter) and its
  net cash `amountPaid`. It says how a run of trades updates them, and proves
  that settling trades moves cash between firms without creating any.
- **Matching**: the engine's six containers as a value `State`, and the engine
  invariant `Valid`. Every operation is a function from the old state to the
  new one: `NewOrder`, `ModifyOrder`, `CancelOrder`, `Match`, `LiveOrders`. The
  module proves what each operation promises, and that every run of
  instructions from an empty engine keeps the invariant.
- **Engine**: the class `MatchingEngine`, with the same six fields updated in
  place. Each state-changing method ensures `Abs() == Matching.<Op>(old(Abs()), ...)`,
  and the queries `InBuy` and `InSell` are tied to the books of `Abs()`. The
  matchOrder scan is an index loop over `ID` whose invariant equates its
  locals with `Engine.Visited`, the scan after `i` firms; `Engine.VisitedMatch`
  then ties the whole scan to `Matching.Match`. liveOrders is a loop over `ID`
  counting each book's keys, with an invariant stated against
  `Matching.AddLive`.

Three behaviours of the code are modelled as written.

- One matchOrder call matches every crossing resting order for the symbol, in
  `ID` order, not only the first. The aggressor's price is copied into a
  local before the loop (matchingEngine.cpp:167, 185), and the loop has no
  break; erasing the aggressor's key again changes nothing. See
  `Matching.MatchBooks`, `Matching.MatchFills` and `Matching.TradesCount`.
- The trade price is always the sell order's price. A buy aggressor pays each
  resting ask's own price. A sell aggressor trades at its own price, not at
  the resting bid.
- An accepted sell-side newOrder sets the firm's `orders` entry to (0, 0) and
  its `amountPaid` to 0 before matching, wiping earlier fills and cash. The
  initialise-if-absent check that follows can then never fire. A buy-side
  newOrder initialises only a firm that has no entries.
  `Matching.NewSellOrderResets` states the result.

## Model

| member | source | states |
|---|---|---|
| Engine.MatchingEngine.constructor | matchingEngine.cpp:28 | All six containers start empty, and the invariant holds |
| Engine.MatchingEngine.InBuy | matchingEngine.cpp:46-51 | True exactly when the key rests on the buy side; under the invariant it then does not rest on the sell side |
| Engine.MatchingEngine.InSell | matchingEngine.cpp:53-58 | True exactly when the key rests on the sell side |
| Matching.CancelOrder | matchingEngine.cpp:60-71 | The key is checked on the buy side first and removed from the side holding it; the other side, the ledger, `ID` and `seen` are unchanged; a key on neither side is a no-op |
| Matching.CancelRemoves | matchingEngine.cpp:60-71 | After a cancel the key is on neither side, every other key stays where it was at the same price, and the invariant holds |
| Engine.MatchingEngine.CancelOrder | matchingEngine.cpp:60-71 | The in-place cancel leaves exactly the state `Matching.CancelOrder` gives and keeps the invariant |
| Matching.Register | matchingEngine.cpp:82-86 | The firm is in `seen` afterwards, `seen` gains only that firm, and the firm is appended to `ID` only if it was not seen before; both books and the ledger are unchanged |
| Matching.InitIfAbsent | matchingEngine.cpp:87-91 | A firm with neither ledger entry gets `orders` (0, 0) and `amountPaid` 0; a firm with either entry is left as it was; the books, `ID` and `seen` are never touched |
| Matching.Placed | matchingEngine.cpp:77-113 | The state an accepted order is matched in: the order is added to its side at its price and nothing else on that side changes, the other side is unchanged, the firm is registered, every other firm's `orders` and `amountPaid` entries are unchanged, a buying firm with entries keeps them, and for a sell the firm's entries are (0, 0) and 0 |
| Matching.NewOrder | matchingEngine.cpp:75-118 | An unknown side, or a key already on either side, changes nothing; otherwise the firm is seen afterwards and is appended to `ID` exactly when it was new |
| Matching.NewOrderValid | matchingEngine.cpp:75-118 | newOrder keeps the engine invariant |
| Matching.PlacedValid | matchingEngine.cpp:77-113 | Placing an accepted order keeps the invariant, including ledger entries for the newly registered firm |
| Matching.RegisterKeeps | matchingEngine.cpp:82-107 | Registering keeps `ID` free of repeats with `seen` as its set, and adds the firm to `seen` |
| Matching.NewBuyOrder | matchingEngine.cpp:77-94 | An accepted bid rests at its price exactly when no ask for the symbol is at or below it; otherwise it is gone; it is never on the sell side; the firm keeps its earlier fills and cash (zero when new), its fills grow by the number of crossing asks and its cash falls by the total price of the asks it bought |
| Matching.NewSellOrderResets | matchingEngine.cpp:96-117 | After an accepted sell, the firm's entry is (0 live, n fills) and its cash is n times its price, where n is the number of crossing bids; the order rests exactly when n is 0 |
| Matching.PlacedSell | matchingEngine.cpp:96-115 | The state a sell is matched in is valid, rests the order at its price, has the buy side unchanged, and has the firm's entries reset to zero |
| Engine.MatchingEngine.NewOrder | matchingEngine.cpp:75-118 | The in-place newOrder leaves exactly the state `Matching.NewOrder` gives and keeps the invariant |
| Matching.ModifyOrder | matchingEngine.cpp:123-139 | A key on neither side is a no-op; `ID` and the ledger's firms are unchanged |
| Matching.ModifyValid | matchingEngine.cpp:123-139 | modifyOrder keeps the engine invariant |
| Matching.ModifyKeepsSide | matchingEngine.cpp:123-139 | A re-priced order stays on its side under its key at the new price exactly when it crosses nothing; it never appears on the other side |
| Engine.MatchingEngine.ModifyOrder | matchingEngine.cpp:123-139 | The in-place erase, re-insert and match leave exactly the state `Matching.ModifyOrder` gives and keep the invariant |
| Books.Unmatched | matchingEngine.cpp:177-195 | The opposite side after the scan holds only keys it held before, at the same prices |
| Books.UnmatchedSnoc | matchingEngine.cpp:177-195 | Scanning one more firm removes exactly its crossing key from the opposite side |
| Books.ScanSound | matchingEngine.cpp:168-198 | Every trade of the scan is with a listed firm whose resting order crosses, at the sell order's price |
| Books.ScanComplete | matchingEngine.cpp:168-198 | A firm is a counterparty of the scan exactly when it is listed and its resting order crosses |
| Books.ScanDistinct | matchingEngine.cpp:168-198 | Scanning a firm list without repeats trades with each firm at most once |
| Books.ScanCount | matchingEngine.cpp:168-198 | The scan makes one trade per crossing resting order of a listed firm |
| Books.ScanEmpty | matchingEngine.cpp:168-198 | When every resting firm is listed, the scan trades exactly when some order crosses |
| Books.UnmatchedListed | matchingEngine.cpp:177-195 | When every resting firm is listed, exactly the crossing orders for the symbol are taken out |
| Matching.Match | matchingEngine.cpp:163-200 | matchOrder never adds to either side, keeps `ID`, `seen` and the ledger's firms, and never changes a live counter |
| Matching.NoSelfTrade | matchingEngine.cpp:168-198 | Under the invariant the aggressor's own key is not on the opposite side, so no trade has the same buyer and seller |
| Matching.MatchValid | matchingEngine.cpp:163-200 | matchOrder keeps the engine invariant |
| Matching.MatchBooks | matchingEngine.cpp:163-200 | After a match every crossing counter-order for the symbol is gone and every other one stays; the aggressor leaves its side exactly when something crossed; other keys on its side stay |
| Matching.TradesCount | matchingEngine.cpp:168-198 | One match makes as many trades as there are crossing counter-orders |
| Matching.MatchFills | matchingEngine.cpp:172-191 | The aggressor's fills grow by the number of crossing counter-orders; each crossing counter-firm gains exactly one; every other firm none |
| Matching.MatchCash | matchingEngine.cpp:174-193 | A buy aggressor pays the sum of the crossing asks, each to its seller; a sell aggressor receives its price once per crossing bid, each bidder paying it; other firms' cash is unchanged |
| Matching.MatchConservesCash | matchingEngine.cpp:172-193 | The total `amountPaid` over all firms is the same before and after a match |
| Matching.ScanFills | matchingEngine.cpp:172-191 | Per firm, the fills a scan books: one per trade for the aggressor, one for a crossing counter-firm |
| Matching.ScanCash | matchingEngine.cpp:174-193 | Per firm, the cash a scan books: the aggressor pays or receives the trades' total, a crossing counter-firm receives its ask or pays the aggressor's price |
| Matching.ScanTotalSell | matchingEngine.cpp:192-193 | A sell aggressor's trades total its own price times their number |
| Ledger.AddFills | matchingEngine.cpp:172-191 | Booking trades keeps the firms and live counters and never lowers a fill counter |
| Ledger.Settle | matchingEngine.cpp:174-193 | Settling trades keeps the set of firms with cash entries |
| Ledger.AddFillsSnoc | matchingEngine.cpp:172-191 | One more trade is booked by bumping the fills of its buyer and seller, one after the other |
| Ledger.SettleSnoc | matchingEngine.cpp:174-193 | One more trade is settled by debiting the buyer and crediting the seller with its price, whichever comes first |
| Ledger.SettleConserves | matchingEngine.cpp:174-193 | Settling trades among listed firms leaves their total cash unchanged |
| Engine.VisitedScans | matchingEngine.cpp:168-198 | After the loop has visited the first i firms, the containers equal the closed form: the first i firms' trades booked, their crossing orders removed, and the aggressor removed once it traded |
| Engine.VisitMatched | matchingEngine.cpp:170-197 | A loop iteration whose firm crosses extends the closed form by that firm's trade |
| Engine.VisitSkipped | matchingEngine.cpp:170-188 | A loop iteration whose firm does not cross leaves the closed form as it was |
| Engine.VisitedMatch | matchingEngine.cpp:163-200 | The loop run over the whole of `ID` leaves exactly the state `Matching.Match` gives |
| Engine.MatchingEngine.MatchOrder | matchingEngine.cpp:163-200 | The in-place scan leaves exactly the state `Matching.Match` gives and keeps the invariant |
| Engine.MatchingEngine.MatchBuy | matchingEngine.cpp:165-181 | The index loop over `ID` for a buy aggressor leaves exactly the state `Matching.Match` gives |
| Engine.MatchingEngine.MatchSell | matchingEngine.cpp:183-199 | The index loop over `ID` for a sell aggressor leaves exactly the state `Matching.Match` gives |
| Matching.AddLive | matchingEngine.cpp:204-215 | Adding resting counts keeps the firms of the `orders` map |
| Matching.LiveOrders | matchingEngine.cpp:202-216 | liveOrders changes only the live counters: books, cash, `ID`, `seen` and the set of ledger firms are unchanged |
| Matching.LiveOrdersCount | matchingEngine.cpp:202-216 | Each listed firm's live counter grows by its resting orders on both sides, its fill counter is unchanged, and the invariant holds |
| Matching.AddLiveSnoc | matchingEngine.cpp:204-215 | Counting one more firm adds its buy-side and then its sell-side resting orders to its live counter only |
| Matching.LiveOrdersTwice | matchingEngine.cpp:202-216 | liveOrders is not idempotent: a second call adds the resting count again |
| Engine.CountInto | matchingEngine.cpp:206-214 | Walking a side key by key adds the firm's number of keys on that side to its live counter |
| Engine.MatchingEngine.LiveOrders | matchingEngine.cpp:202-216 | The nested loops leave exactly the state `Matching.LiveOrders` gives and keep the invariant |
| Matching.NewOrderLiveZero | matchingEngine.cpp:75-118 | In any state, every live counter after newOrder is either zero or what it was before, so newOrder writes a live counter only to create or reset it at zero; all-zero counters stay zero |
| Matching.StepKeeps | matchingEngine.cpp:60-139 | Each instruction keeps the invariant and keeps every live counter at zero |
| Matching.RunKeeps | matchingEngine.cpp:60-139 | Every run of instructions keeps the invariant and keeps live counters at zero |
| Matching.FinalLiveCounts | matchingEngine.cpp:60-216 | After any run from an empty engine, no key rests on both sides, and one liveOrders call sets each firm's live counter to its number of resting orders |

## Left out

- printBuy, printSell, printID and output (matchingEngine.cpp:39, 141-157, 218-234) only write to the console. output also sorts `ID` for display. None of them is modelled.
- main (matchingEngine.cpp:237 onwards) reads instructions from standard input and dispatches them; `Matching.Run` over a sequence of `Matching.Op` stands in for it.
- Prices and cash are `float` in the code and unbounded integers here, because the engine only compares, adds and subtracts them; rounding is not modelled.
- Firm ids are `uint16_t` in the code and `nat` here. Fill and live counters are `int` in the code and unbounded here, so overflow is not modelled.
- Engine.MatchingEngine.MatchOrder: requires the aggressor's key to rest on its side. Every caller guarantees this. The code's `operator[]` read of a missing key, which would insert it at price 0, is therefore not modelled.
- Engine.MatchingEngine.NewOrder, ModifyOrder, CancelOrder, MatchOrder and LiveOrders require the engine invariant `Valid`. The constructor establishes it and every method keeps it, so no reachable state is excluded. The code's `operator[]` inserts into `orders` or `amountPaid`, which happen only for firms without entries, are unreachable under it.
- Engine.MatchingEngine.MatchBuy and MatchSell update the four containers in place in the code. The model carries them in locals through the loop and stores them back after it. Nothing observes the fields in between, so only that intermediate in-place state is not captured.
- Engine.CountInto visits a side's keys in an arbitrary order rather than `std::map` key order. It only counts, so the result is the same.
- The order books' `std::map` ordering and the ledgers' hashing play no part in any operation's result and are modelled as plain maps.
