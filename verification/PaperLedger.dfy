/** The paper-trading account: what every order does to cash, positions and the books between them. */
module PaperLedger {
  import opened Options

  datatype Side = Buy | Sell

  datatype Order = Order(id: string, symbol: string, side: Side, market: bool, quantity: real, price: Option<real>)

  datatype Position =
    Position(quantity: real, entryPrice: real, markPrice: real, realizedPnl: real, unrealizedPnl: real)

  datatype Trade = Trade(symbol: string, side: Side, quantity: real, price: real, commission: real)

  /** slippage and commission in basis points */
  datatype Config = Config(slippageBps: real, commissionBps: real)

  /** The account, with two running totals the program does not keep: the realized profit of all positions, closed
      ones included, and the value that orders moved without booking it. */
  datatype Account = Account(initial: real, balance: real, positions: map<string, Position>, trades: seq<Trade>,
                             lastPrices: map<string, real>, realized: real, unbooked: real)

  const DUST := 0.0000000001

  function FillPrice(cfg: Config, lastPrices: map<string, real>, o: Order): real {
    var price := if o.symbol in lastPrices then lastPrices[o.symbol] else if o.price.Some? then o.price.value else 0.0;
    var slippage := price * cfg.slippageBps / 10000.0;
    if o.side == Buy then price + slippage else price - slippage
  }

  function Commission(cfg: Config, quantity: real, price: real): real {
    quantity * price * cfg.commissionBps / 10000.0
  }

  function Bought(p: Position, quantity: real, price: real): Position {
    var q := p.quantity + quantity;
    p.(quantity := q, markPrice := price,
       entryPrice := if q == 0.0 then 0.0 else (p.entryPrice * p.quantity + price * quantity) / q)
  }

  function Sold(p: Position, quantity: real, price: real): Position {
    p.(quantity := p.quantity - quantity, markPrice := price,
       realizedPnl := p.realizedPnl + (price - p.entryPrice) * quantity)
  }

  /** What a trade does to the cash. */
  function Cash(t: Trade): real {
    if t.side == Buy then -(t.quantity * t.price + t.commission) else t.quantity * t.price - t.commission
  }

  function Traded(a: Account, t: Trade): Account {
    a.(trades := a.trades + [t], balance := a.balance + Cash(t))
  }

  function AfterBuy(a: Account, t: Trade): Account {
    var p := if t.symbol in a.positions then Bought(a.positions[t.symbol], t.quantity, t.price)
             else Position(t.quantity, t.price, t.price, 0.0, 0.0);
    Traded(a, t).(positions := a.positions[t.symbol := p])
  }

  function AfterSell(a: Account, t: Trade): Account {
    if t.symbol in a.positions then
      var was := a.positions[t.symbol];
      var p := Sold(was, t.quantity, t.price);
      var a' := Traded(a, t).(realized := a.realized + (t.price - was.entryPrice) * t.quantity);
      if p.quantity <= DUST then
        a'.(positions := a.positions - {t.symbol}, unbooked := a.unbooked - p.quantity * was.entryPrice)
      else
        a'.(positions := a.positions[t.symbol := p])
    else
      Traded(a, t).(unbooked := a.unbooked + t.quantity * t.price)
  }

  function FillOf(cfg: Config, a: Account, o: Order): Trade {
    var price := FillPrice(cfg, a.lastPrices, o);
    Trade(o.symbol, o.side, o.quantity, price, Commission(cfg, o.quantity, price))
  }

  /** Market orders fill at once; others wait and change nothing. */
  function Place(cfg: Config, a: Account, o: Order): Account {
    if !o.market then a
    else if o.side == Buy then AfterBuy(a, FillOf(cfg, a, o))
    else AfterSell(a, FillOf(cfg, a, o))
  }

  /** A new price for a symbol, an order, or a look at the positions, which marks them to market. */
  datatype Step = Price(symbol: string, price: real) | Submit(order: Order) | Refresh

  function Next(cfg: Config, a: Account, step: Step): Account {
    match step
    case Price(s, p) => a.(lastPrices := a.lastPrices[s := p])
    case Submit(o) => Place(cfg, a, o)
    case Refresh => Refreshed(a)
  }

  function Open(initial: real): Account {
    Account(initial, initial, map[], [], map[], 0.0, 0.0)
  }

  function Run(cfg: Config, initial: real, steps: seq<Step>): Account {
    if steps == [] then Open(initial) else Next(cfg, Run(cfg, initial, steps[..|steps| - 1]), steps[|steps| - 1])
  }

  ghost predicate PositiveOrders(steps: seq<Step>) {
    forall k :: 0 <= k < |steps| && steps[k].Submit? ==> steps[k].order.quantity > 0.0
  }

  // Sums over maps.

  ghost function SumOver<K>(m: map<K, real>): real
    decreases |m|
  {
    if m.Keys == {} then 0.0
    else
      var k :| k in m.Keys;
      m[k] + SumOver(m - {k})
  }

  lemma {:induction false} SumRemove<K>(m: map<K, real>, k: K)
    requires k in m
    ensures SumOver(m) == m[k] + SumOver(m - {k})
    decreases |m|
  {
    var j :| j in m.Keys && SumOver(m) == m[j] + SumOver(m - {j});
    if j != k {
      SumRemove(m - {j}, k);
      SumRemove(m - {k}, j);
      assert m - {j} - {k} == m - {k} - {j};
    }
  }

  lemma SetThenRemove<K, V>(m: map<K, V>, k: K, v: V)
    ensures m[k := v] - {k} == m - {k}
  {
  }

  lemma SumSet<K>(m: map<K, real>, k: K, v: real)
    ensures SumOver(m[k := v]) == v + SumOver(m - {k})
  {
    SumRemove(m[k := v], k);
    assert m[k := v] - {k} == m - {k};
  }

  lemma SumWithout<K>(m: map<K, real>, k: K)
    ensures SumOver(m - {k}) == SumOver(m) - if k in m then m[k] else 0.0
  {
    if k in m {
      SumRemove(m, k);
    } else {
      assert m - {k} == m;
    }
  }

  function Cost(p: Position): real {
    p.quantity * p.entryPrice
  }

  ghost function Costs(positions: map<string, Position>): map<string, real> {
    map s | s in positions :: Cost(positions[s])
  }

  function Commissions(trades: seq<Trade>): real {
    if trades == [] then 0.0 else Commissions(trades[..|trades| - 1]) + trades[|trades| - 1].commission
  }

  /** What the trades did to the cash. */
  function CashFlow(trades: seq<Trade>): real {
    if trades == [] then 0.0
    else
      var t := trades[|trades| - 1];
      CashFlow(trades[..|trades| - 1]) + Cash(t)
  }

  ghost function BookValue(a: Account): real {
    a.initial + a.realized - Commissions(a.trades) - SumOver(Costs(a.positions))
  }

  /** Cash follows the trades, the books follow the cash up to what went unbooked, and holdings are positive. */
  ghost predicate Inv(a: Account) {
    && a.balance == a.initial + CashFlow(a.trades)
    && a.balance == BookValue(a) + a.unbooked
    && forall s :: s in a.positions ==> a.positions[s].quantity > 0.0
  }

  lemma TradeAppend(trades: seq<Trade>, t: Trade)
    ensures Commissions(trades + [t]) == Commissions(trades) + t.commission
    ensures CashFlow(trades + [t]) == CashFlow(trades) + Cash(t)
  {
    assert (trades + [t])[..|trades + [t]| - 1] == trades;
  }

  /** The average entry price carries the whole cost. */
  lemma BoughtCost(p: Position, quantity: real, price: real)
    requires p.quantity > 0.0 && quantity > 0.0
    ensures Cost(Bought(p, quantity, price)) == Cost(p) + quantity * price
  {
    var q := p.quantity + quantity;
    var c := p.entryPrice * p.quantity + price * quantity;
    assert q * (c / q) == c;
  }

  lemma SoldCost(p: Position, quantity: real, price: real)
    ensures Cost(Sold(p, quantity, price)) == Cost(p) - quantity * p.entryPrice
    ensures (price - p.entryPrice) * quantity == quantity * price - quantity * p.entryPrice
  {
  }

  lemma CostsSet(positions: map<string, Position>, s: string, p: Position)
    ensures SumOver(Costs(positions[s := p]))
         == SumOver(Costs(positions)) - (if s in positions then Cost(positions[s]) else 0.0) + Cost(p)
  {
    assert Costs(positions[s := p]) == Costs(positions)[s := Cost(p)];
    SumSet(Costs(positions), s, Cost(p));
    SumWithout(Costs(positions), s);
  }

  lemma CostsRemoved(positions: map<string, Position>, s: string)
    requires s in positions
    ensures SumOver(Costs(positions - {s})) == SumOver(Costs(positions)) - Cost(positions[s])
  {
    assert Costs(positions - {s}) == Costs(positions) - {s};
    SumWithout(Costs(positions), s);
  }

  lemma InvBuy(a: Account, t: Trade)
    requires Inv(a) && t.side == Buy && t.quantity > 0.0
    ensures Inv(AfterBuy(a, t)) && AfterBuy(a, t).unbooked == a.unbooked
  {
    hide Costs, SumOver, Commissions, CashFlow, Bought;
    TradeAppend(a.trades, t);
    if t.symbol in a.positions {
      BoughtCost(a.positions[t.symbol], t.quantity, t.price);
      assert Bought(a.positions[t.symbol], t.quantity, t.price).quantity > 0.0 by {
        BoughtQuantity(a.positions[t.symbol], t.quantity, t.price);
      }
    }
    CostsSet(a.positions, t.symbol, AfterBuy(a, t).positions[t.symbol]);
  }

  lemma BoughtQuantity(p: Position, quantity: real, price: real)
    ensures Bought(p, quantity, price).quantity == p.quantity + quantity
  {
  }

  lemma InvSell(a: Account, t: Trade)
    requires Inv(a) && t.side == Sell
    ensures Inv(AfterSell(a, t))
  {
    hide Costs, SumOver, Commissions, CashFlow, Sold;
    TradeAppend(a.trades, t);
    if t.symbol in a.positions {
      var was := a.positions[t.symbol];
      var p := Sold(was, t.quantity, t.price);
      SoldCost(was, t.quantity, t.price);
      SoldParts(was, t.quantity, t.price);
      CostsSet(a.positions, t.symbol, p);
      CostsRemoved(a.positions, t.symbol);
    }
  }

  lemma SoldParts(p: Position, quantity: real, price: real)
    ensures var s := Sold(p, quantity, price); s.quantity == p.quantity - quantity && s.entryPrice == p.entryPrice
  {
  }

  lemma InvNext(cfg: Config, a: Account, step: Step)
    requires Inv(a) && (step.Submit? ==> step.order.quantity > 0.0)
    ensures Inv(Next(cfg, a, step))
  {
    if step.Refresh? {
      EquityIdentity(a);
    } else if step.Submit? && step.order.market {
      var t := FillOf(cfg, a, step.order);
      if step.order.side == Buy {
        InvBuy(a, t);
      } else {
        InvSell(a, t);
      }
    }
  }

  /** Over every run of orders of positive quantity: cash is the starting balance plus what the trades moved, it
      equals the books plus what went unbooked, and every holding is positive. */
  lemma {:induction false} LedgerHolds(cfg: Config, initial: real, steps: seq<Step>)
    requires PositiveOrders(steps)
    ensures Inv(Run(cfg, initial, steps))
    ensures Run(cfg, initial, steps).initial == initial
  {
    if steps == [] {
      assert Costs(map[]) == map[];
    } else {
      var rest := steps[..|steps| - 1];
      LedgerHolds(cfg, initial, rest);
      InvNext(cfg, Run(cfg, initial, rest), steps[|steps| - 1]);
    }
  }

  /** An order that books all it moves: not a sale of something not held, nor one that leaves a remainder, owed or
      dropped as dust, at a price. */
  predicate Clean(cfg: Config, a: Account, o: Order) {
    || !o.market || o.side == Buy
    || if o.symbol in a.positions then
         var p := a.positions[o.symbol];
         var left := p.quantity - o.quantity;
         left > DUST || left == 0.0 || p.entryPrice == 0.0
       else FillPrice(cfg, a.lastPrices, o) == 0.0
  }

  lemma ProductZero(a: real, b: real)
    ensures a * b == 0.0 <==> a == 0.0 || b == 0.0
  {
  }

  /** The plain identity, balance = initial + realized - commissions - cost of holdings, survives an order exactly
      when the order is clean. */
  lemma CleanOrdersKeepTheBooks(cfg: Config, a: Account, o: Order)
    requires Inv(a) && a.balance == BookValue(a) && o.quantity > 0.0
    ensures var a' := Place(cfg, a, o); a'.balance == BookValue(a') <==> Clean(cfg, a, o)
  {
    hide Costs, SumOver, Commissions, CashFlow, FillPrice, Commission;
    InvNext(cfg, a, Submit(o));
    if o.market && o.side == Sell {
      UnbookedBySale(a, FillOf(cfg, a, o));
    } else if o.market {
      InvBuy(a, FillOf(cfg, a, o));
    }
  }

  lemma UnbookedBySale(a: Account, t: Trade)
    requires t.quantity > 0.0
    ensures AfterSell(a, t).unbooked == a.unbooked <==>
      if t.symbol in a.positions then
        var left := a.positions[t.symbol].quantity - t.quantity;
        left > DUST || left == 0.0 || a.positions[t.symbol].entryPrice == 0.0
      else t.price == 0.0
  {
    if t.symbol in a.positions {
      SoldParts(a.positions[t.symbol], t.quantity, t.price);
      ProductZero(a.positions[t.symbol].quantity - t.quantity, a.positions[t.symbol].entryPrice);
    } else {
      ProductZero(t.quantity, t.price);
    }
  }

  /** What a step must be for the plain identity to survive it: only orders trade. */
  predicate CleanStep(cfg: Config, a: Account, step: Step) {
    step.Submit? ==> Clean(cfg, a, step.order)
  }

  /** Every order of the run is clean in the account it meets. */
  predicate AllClean(cfg: Config, initial: real, steps: seq<Step>) {
    steps == [] ||
    var rest := steps[..|steps| - 1];
    AllClean(cfg, initial, rest) && CleanStep(cfg, Run(cfg, initial, rest), steps[|steps| - 1])
  }

  /** The plain identity holds at the start and after every step of the run. */
  ghost predicate BalancedThroughout(cfg: Config, initial: real, steps: seq<Step>) {
    var a := Run(cfg, initial, steps);
    && a.balance == BookValue(a)
    && (steps == [] || BalancedThroughout(cfg, initial, steps[..|steps| - 1]))
  }

  lemma CleanStepsKeepTheBooks(cfg: Config, a: Account, step: Step)
    requires Inv(a) && a.balance == BookValue(a) && (step.Submit? ==> step.order.quantity > 0.0)
    ensures var a' := Next(cfg, a, step); a'.balance == BookValue(a') <==> CleanStep(cfg, a, step)
  {
    match step
    case Price(_, _) =>
    case Submit(o) => CleanOrdersKeepTheBooks(cfg, a, o);
    case Refresh => MarkingKeepsCosts(a);
  }

  /** Over every run of orders of positive quantity, balance = initial + realized - commissions - cost of holdings
      holds all the way if and only if every order of the run is clean. */
  lemma {:induction false} BooksBalanceOnCleanRuns(cfg: Config, initial: real, steps: seq<Step>)
    requires PositiveOrders(steps)
    ensures BalancedThroughout(cfg, initial, steps) <==> AllClean(cfg, initial, steps)
  {
    LedgerHolds(cfg, initial, steps);
    if steps == [] {
      assert Costs(map[]) == map[];
    } else {
      hide BookValue, Inv, Clean;
      var rest := steps[..|steps| - 1];
      BooksBalanceOnCleanRuns(cfg, initial, rest);
      LedgerHolds(cfg, initial, rest);
      if BalancedThroughout(cfg, initial, rest) {
        CleanStepsKeepTheBooks(cfg, Run(cfg, initial, rest), steps[|steps| - 1]);
      }
    }
  }

  // Marking to market.

  function Marked(lastPrices: map<string, real>, s: string, p: Position): Position {
    var last := if s in lastPrices then lastPrices[s] else p.markPrice;
    p.(markPrice := last, unrealizedPnl := (last - p.entryPrice) * p.quantity)
  }

  /** get_positions refreshes every mark and unrealized profit. */
  function Refreshed(a: Account): Account {
    a.(positions := map s | s in a.positions :: Marked(a.lastPrices, s, a.positions[s]))
  }

  ghost function Values(positions: map<string, Position>): map<string, real> {
    map s | s in positions :: positions[s].quantity * positions[s].markPrice
  }

  ghost function Unrealized(positions: map<string, Position>): map<string, real> {
    map s | s in positions :: positions[s].unrealizedPnl
  }

  lemma {:induction false} SumAdd<K>(m: map<K, real>, a: map<K, real>, b: map<K, real>)
    requires m.Keys == a.Keys == b.Keys
    requires forall k :: k in m ==> m[k] == a[k] + b[k]
    ensures SumOver(m) == SumOver(a) + SumOver(b)
    decreases |m|
  {
    if m.Keys != {} {
      var k :| k in m.Keys;
      SumRemove(m, k);
      SumRemove(a, k);
      SumRemove(b, k);
      SumAdd(m - {k}, a - {k}, b - {k});
    }
  }

  lemma MarkingKeepsCosts(a: Account)
    ensures Costs(Refreshed(a).positions) == Costs(a.positions)
    ensures forall s :: s in Refreshed(a).positions <==> s in a.positions
    ensures forall s :: s in a.positions ==> Refreshed(a).positions[s].quantity == a.positions[s].quantity
  {
    var c, d := Costs(Refreshed(a).positions), Costs(a.positions);
    assert forall s :: s in c ==> s in d;
    assert forall s :: s in d ==> s in c;
    assert c.Keys <= d.Keys && d.Keys <= c.Keys;
    assert forall s :: s in c ==> c[s] == d[s];
  }

  /** Cash plus holdings at market is what came in, realized and unrealized profit, less commissions, plus what went
      unbooked. */
  lemma EquityIdentity(a: Account)
    requires Inv(a)
    ensures var r := Refreshed(a);
            && Inv(r)
            && r.balance + SumOver(Values(r.positions))
               == r.initial + r.realized + SumOver(Unrealized(r.positions)) - Commissions(r.trades) + r.unbooked
  {
    var r := Refreshed(a);
    MarkingKeepsCosts(a);
    hide SumOver, Commissions, CashFlow;
    forall s | s in r.positions
      ensures Values(r.positions)[s] == Costs(r.positions)[s] + Unrealized(r.positions)[s]
    {
      var p := r.positions[s];
      MarketValue(p.quantity, p.entryPrice, p.markPrice);
    }
    SumAdd(Values(r.positions), Costs(r.positions), Unrealized(r.positions));
  }

  lemma MarketValue(quantity: real, entry: real, mark: real)
    ensures quantity * mark == quantity * entry + (mark - entry) * quantity
  {
  }

  // What a single order costs, and what a position has earned.

  /** The price before slippage: the last one seen, else the order's own, else 0. */
  ghost predicate Quoted(lastPrices: map<string, real>, o: Order, price: real) {
    if o.symbol in lastPrices then price == lastPrices[o.symbol]
    else if o.price.Some? then price == o.price.value
    else price == 0.0
  }

  /** The last price that a run gives for a symbol. */
  function LastSeen(steps: seq<Step>, s: string): Option<real> {
    if steps == [] then None
    else if steps[|steps| - 1].Price? && steps[|steps| - 1].symbol == s then Some(steps[|steps| - 1].price)
    else LastSeen(steps[..|steps| - 1], s)
  }

  /** Over every run a market order is quoted the last price seen for its symbol, and its own price only before any. */
  lemma {:induction false} QuotedIsLastSeen(cfg: Config, initial: real, steps: seq<Step>, o: Order, price: real)
    ensures Quoted(Run(cfg, initial, steps).lastPrices, o, price) <==>
      price == match LastSeen(steps, o.symbol)
               case Some(last) => last
               case None => if o.price.Some? then o.price.value else 0.0
  {
    if steps != [] {
      QuotedIsLastSeen(cfg, initial, steps[..|steps| - 1], o, price);
    }
  }

  lemma SlippedNotional(q: real, p: real, s: real, d: real)
    requires d == 1.0 || d == -1.0
    ensures q * (p + d * (p * s / 10000.0)) == q * p + d * (q * p * s / 10000.0)
  {
    var x := p * s;
    assert q * (p + d * (x / 10000.0)) == q * p + d * (q * x / 10000.0);
    assert q * x == q * p * s;
  }

  lemma CommissionOnSlipped(notional: real, slippage: real, c: real, d: real)
    requires d == 1.0 || d == -1.0
    ensures (notional + d * slippage) * c / 10000.0 == notional * c / 10000.0 + d * (slippage * c / 10000.0)
  {
    assert (notional + d * slippage) * c == notional * c + d * (slippage * c);
  }

  lemma FillPriceIs(cfg: Config, lastPrices: map<string, real>, o: Order, price: real, d: real)
    requires Quoted(lastPrices, o, price) && d == if o.side == Buy then 1.0 else -1.0
    ensures FillPrice(cfg, lastPrices, o) == price + d * (price * cfg.slippageBps / 10000.0)
  {
  }

  /** A market order moves its notional, and costs the slippage on it and the commission on both. */
  lemma OrderCost(cfg: Config, a: Account, o: Order, price: real)
    requires o.market && Quoted(a.lastPrices, o, price)
    ensures var d := if o.side == Buy then 1.0 else -1.0;
            var notional := o.quantity * price;
            var slippage := notional * cfg.slippageBps / 10000.0;
            Place(cfg, a, o).balance
            == a.balance - d * notional - slippage
               - (notional * cfg.commissionBps / 10000.0 + d * (slippage * cfg.commissionBps / 10000.0))
  {
    var d := if o.side == Buy then 1.0 else -1.0;
    var notional := o.quantity * price;
    var slippage := notional * cfg.slippageBps / 10000.0;
    FillPriceIs(cfg, a.lastPrices, o, price, d);
    SlippedNotional(o.quantity, price, cfg.slippageBps, d);
    CommissionOnSlipped(notional, slippage, cfg.commissionBps, d);
    CashOfPlace(cfg, a, o);
    hide Place, FillPrice;
    var t := FillOf(cfg, a, o);
    assert t.quantity * t.price == notional + d * slippage;
    assert t.commission == t.quantity * t.price * cfg.commissionBps / 10000.0;
  }

  lemma CashOfPlace(cfg: Config, a: Account, o: Order)
    requires o.market
    ensures Place(cfg, a, o).balance == a.balance + Cash(FillOf(cfg, a, o))
    ensures Place(cfg, a, o).lastPrices == a.lastPrices
    ensures FillOf(cfg, a, o).side == o.side
  {
  }

  /** Buying and selling again at an unmoved price costs the slippage and the commission on the notional, twice. */
  lemma RoundTripCost(cfg: Config, a: Account, buy: Order, sell: Order, price: real)
    requires buy.market && sell.market && buy.side == Buy && sell.side == Sell
    requires buy.symbol == sell.symbol && buy.quantity == sell.quantity
    requires Quoted(a.lastPrices, buy, price) && Quoted(a.lastPrices, sell, price)
    ensures Place(cfg, Place(cfg, a, buy), sell).balance
         == a.balance - 2.0 * (buy.quantity * price * cfg.slippageBps / 10000.0)
                      - 2.0 * (buy.quantity * price * cfg.commissionBps / 10000.0)
  {
    CashOfPlace(cfg, a, buy);
    OrderCost(cfg, a, buy, price);
    OrderCost(cfg, Place(cfg, a, buy), sell, price);
  }

  /** What is held of a symbol after a trade in it. */
  function HeldAfter(before: Option<(real, real)>, t: Trade): Option<(real, real)> {
    match before
    case None => if t.side == Buy then Some((t.quantity, t.quantity * t.price)) else None
    case Some((quantity, paid)) =>
      if t.side == Buy then Some((quantity + t.quantity, paid + t.quantity * t.price))
      else if quantity - t.quantity <= 0.0000000001 then None
      else Some((quantity - t.quantity, paid - t.quantity * t.price))
  }

  /** Of a symbol, the quantity held since it was last not held, and what has been paid for it less what was
      received. */
  function Held(trades: seq<Trade>, s: string): Option<(real, real)> {
    if trades == [] then None
    else
      var before, t := Held(trades[..|trades| - 1], s), trades[|trades| - 1];
      if t.symbol == s then HeldAfter(before, t) else before
  }

  function LastTradePrice(trades: seq<Trade>, s: string): real {
    if trades == [] then 0.0
    else if trades[|trades| - 1].symbol == s then trades[|trades| - 1].price
    else LastTradePrice(trades[..|trades| - 1], s)
  }

  /** The position follows the trades in its symbol. */
  ghost predicate Follows(a: Account, s: string) {
    && (s in a.positions <==> Held(a.trades, s).Some?)
    && (s in a.positions ==>
          var p, held := a.positions[s], Held(a.trades, s).value;
          && p.quantity == held.0 && Cost(p) - p.realizedPnl == held.1
          && (s in a.lastPrices || p.markPrice == LastTradePrice(a.trades, s)))
  }

  lemma HeldAppend(trades: seq<Trade>, t: Trade, s: string)
    ensures Held(trades + [t], s) == if t.symbol == s then HeldAfter(Held(trades, s), t) else Held(trades, s)
    ensures LastTradePrice(trades + [t], s) == if t.symbol == s then t.price else LastTradePrice(trades, s)
  {
    assert (trades + [t])[..|trades + [t]| - 1] == trades;
  }

  lemma FollowsBuy(a: Account, t: Trade, s: string)
    requires Inv(a) && t.side == Buy && t.quantity > 0.0 && Follows(a, s)
    ensures Follows(AfterBuy(a, t), s)
  {
    HeldAppend(a.trades, t, s);
    hide Held, LastTradePrice, Inv;
    if t.symbol == s && s in a.positions {
      assert a.positions[s].quantity > 0.0 by {
        HoldingsPositive(a, s);
      }
      BoughtCost(a.positions[s], t.quantity, t.price);
      hide Cost;
    }
  }

  lemma HoldingsPositive(a: Account, s: string)
    requires Inv(a) && s in a.positions
    ensures a.positions[s].quantity > 0.0
  {
  }

  lemma FollowsSell(a: Account, t: Trade, s: string)
    requires t.side == Sell && Follows(a, s)
    ensures Follows(AfterSell(a, t), s)
  {
    HeldAppend(a.trades, t, s);
    hide Held, LastTradePrice;
    if t.symbol == s && s in a.positions {
      SoldCost(a.positions[s], t.quantity, t.price);
      hide Cost;
    }
  }

  lemma FollowsNext(cfg: Config, a: Account, step: Step, s: string)
    requires Inv(a) && Follows(a, s) && (step.Submit? ==> step.order.quantity > 0.0)
    ensures Follows(Next(cfg, a, step), s)
  {
    hide Inv, FillPrice, Commission;
    if step.Submit? && step.order.market {
      var t := FillOf(cfg, a, step.order);
      if step.order.side == Buy {
        FollowsBuy(a, t, s);
      } else {
        FollowsSell(a, t, s);
      }
    }
  }

  /** Over every run of orders of positive quantity the positions follow the trades. */
  lemma {:induction false} PositionsFollowTrades(cfg: Config, initial: real, steps: seq<Step>, s: string)
    requires PositiveOrders(steps)
    ensures Follows(Run(cfg, initial, steps), s)
  {
    if steps != [] {
      var rest := steps[..|steps| - 1];
      PositionsFollowTrades(cfg, initial, rest, s);
      LedgerHolds(cfg, initial, rest);
      FollowsNext(cfg, Run(cfg, initial, rest), steps[|steps| - 1], s);
    }
  }

  /** A look at the positions shows each at the last price seen, or that of its last trade, and its realized and
      unrealized profit together are its value at that price less what has been paid for it. */
  lemma ProfitOfPosition(cfg: Config, initial: real, steps: seq<Step>, s: string)
    requires PositiveOrders(steps)
    ensures var a := Next(cfg, Run(cfg, initial, steps), Refresh);
            && (s in a.positions <==> Held(a.trades, s).Some?)
            && (s in a.positions ==>
                  var p, held := a.positions[s], Held(a.trades, s).value;
                  && p.markPrice == (if s in a.lastPrices then a.lastPrices[s] else LastTradePrice(a.trades, s))
                  && p.realizedPnl + p.unrealizedPnl == held.0 * p.markPrice - held.1)
  {
    PositionsFollowTrades(cfg, initial, steps, s);
    hide Run, Follows, Held, LastTradePrice, PositiveOrders;
    MarkedPosition(Run(cfg, initial, steps), s);
  }

  lemma MarkedPosition(b: Account, s: string)
    requires Follows(b, s)
    ensures var a := Refreshed(b);
            && (s in a.positions <==> Held(a.trades, s).Some?)
            && (s in a.positions ==>
                  var p, held := a.positions[s], Held(a.trades, s).value;
                  && p.markPrice == (if s in a.lastPrices then a.lastPrices[s] else LastTradePrice(a.trades, s))
                  && p.realizedPnl + p.unrealizedPnl == held.0 * p.markPrice - held.1)
  {
    hide Held, LastTradePrice;
    if s in b.positions {
      var held := Held(b.trades, s).value;
      var p := Marked(b.lastPrices, s, b.positions[s]);
      ProfitWhenMarked(b.positions[s], p.markPrice, held.0, held.1);
      hide Cost;
    }
  }

  lemma ProfitWhenMarked(p: Position, mark: real, quantity: real, paid: real)
    requires p.quantity == quantity && Cost(p) - p.realizedPnl == paid
    ensures p.realizedPnl + (mark - p.entryPrice) * p.quantity == quantity * mark - paid
  {
    MarketValue(p.quantity, p.entryPrice, mark);
  }

  datatype Status = Submitted | Filled

  /** The adapter object. */
  class PaperTradingAdapter {
    const initialBalance: real
    const cfg: Config
    var balance: real
    var positions: map<string, Position>
    var orders: map<string, Status>
    var trades: seq<Trade>
    var lastPrices: map<string, real>
    ghost var realized: real
    ghost var unbooked: real

    ghost function View(): Account
      reads this
    {
      Account(initialBalance, balance, positions, trades, lastPrices, realized, unbooked)
    }

    constructor (initialBalance: real, cfg: Config)
      ensures View() == Open(initialBalance) && this.cfg == cfg && orders == map[]
    {
      this.initialBalance, this.cfg := initialBalance, cfg;
      balance, positions, orders, trades, lastPrices := initialBalance, map[], map[], [], map[];
      realized, unbooked := 0.0, 0.0;
    }

    method UpdatePrice(symbol: string, price: real)
      modifies this
      ensures View() == Next(cfg, old(View()), Price(symbol, price)) && orders == old(orders)
    {
      lastPrices := lastPrices[symbol := price];
    }

    /** A purchase must not bring a position to zero, where the average price is undefined. */
    method PlaceOrder(o: Order)
      requires o.market && o.side == Buy && o.symbol in positions ==> positions[o.symbol].quantity + o.quantity != 0.0
      modifies this
      ensures View() == Place(cfg, old(View()), o)
      ensures orders == old(orders)[o.id := if o.market then Filled else Submitted]
    {
      if o.market {
        var fill := FillPrice(cfg, lastPrices, o);
        var t := Trade(o.symbol, o.side, o.quantity, fill, Commission(cfg, o.quantity, fill));
        UpdateBalanceAndPosition(t);
        orders := orders[o.id := Filled];
      } else {
        orders := orders[o.id := Submitted];
      }
    }

    method UpdateBalanceAndPosition(t: Trade)
      modifies `balance, `positions, `trades, `realized, `unbooked
      ensures View() == if t.side == Buy then AfterBuy(old(View()), t) else AfterSell(old(View()), t)
    {
      if t.side == Buy {
        ApplyBuy(t);
      } else {
        ApplySell(t);
      }
    }

    method ApplyBuy(t: Trade)
      requires t.side == Buy
      modifies `balance, `positions, `trades
      ensures View() == AfterBuy(old(View()), t)
    {
      var notional := t.quantity * t.price;
      trades := trades + [t];
      balance := balance - (notional + t.commission);
      if t.symbol in positions {
        positions := positions[t.symbol := Bought(positions[t.symbol], t.quantity, t.price)];
      } else {
        positions := positions[t.symbol := Position(t.quantity, t.price, t.price, 0.0, 0.0)];
      }
    }

    method ApplySell(t: Trade)
      requires t.side == Sell
      modifies `balance, `positions, `trades, `realized, `unbooked
      ensures View() == AfterSell(old(View()), t)
    {
      var notional := t.quantity * t.price;
      trades := trades + [t];
      balance := balance + (notional - t.commission);
      if t.symbol in positions {
        var was := positions[t.symbol];
        var p := Sold(was, t.quantity, t.price);
        positions := positions[t.symbol := p];
        realized := realized + (t.price - was.entryPrice) * t.quantity;
        if p.quantity <= DUST {
          SetThenRemove(old(positions), t.symbol, p);
          positions := positions - {t.symbol};
          unbooked := unbooked - p.quantity * was.entryPrice;
        }
      } else {
        unbooked := unbooked + t.quantity * t.price;
      }
    }

    method GetPositions()
      modifies `positions
      ensures View() == Next(cfg, old(View()), Refresh) && orders == old(orders)
    {
      positions := map s | s in positions :: Marked(lastPrices, s, positions[s]);
    }
  }
}
