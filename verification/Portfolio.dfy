/**
 Live valuation of the portfolio page (frontend/src/pages/Stocks.tsx): quotes are merged into
 accounts and positions, whose figures are recomputed bottom up and rounded to cents at some
 levels only.  Money is exact: reals stand for the program's floating-point numbers.
 */
module Portfolio {
  import opened Wrappers

  datatype Quote = Quote(price: Option<real>, changePct: Option<real>)

  type Quotes = map<string, Quote>

  /** The figures mergePortfolioQuotes computes for a position. */
  datatype Figures = Figures(priceBase: Option<real>, marketValue: Option<real>, marketValueBase: Option<real>,
                             pnl: Option<real>, pnlPct: Option<real>, dailyPnl: Option<real>,
                             dailyPnlPct: Option<real>, exchangeRate: Option<real>)

  /** `info` stands for the fields that are only carried along. */
  datatype Position = Position(info: string, symbol: string, market: string, costPrice: real, quantity: real,
                               price: Option<real>, changePct: Option<real>, figures: Figures)

  datatype Totals = Totals(marketValue: real, cost: real, pnl: real, pnlPct: real, dailyPnl: real, assets: real)

  datatype Account = Account(info: string, funds: real, totals: Totals, positions: seq<Position>)

  datatype Rates = Rates(usdTwd: Option<real>, hkdTwd: Option<real>, cnyTwd: Option<real>,
                         hkdCny: Option<real>, usdCny: Option<real>, twdCny: Option<real>)

  datatype Summary = Summary(accounts: seq<Account>, total: Totals, funds: real,
                             baseCurrency: string, rates: Rates)

  // ---- One position --------------------------------------------------------------------------------

  /** Math.round(value * 100) / 100 */
  function Round2(value: real): real {
    (100.0 * value + 0.5).Floor as real / 100.0
  }

  function KeyOf(market: string, symbol: string): string {
    market + ":" + symbol
  }

  datatype Rate = Rate(rate: real, isForeign: bool)

  function GetRate(s: Summary, market: string): Rate {
    if s.baseCurrency == "" || s.baseCurrency == "TWD" then
      match market
      case "TW" => Rate(1.0, false)
      case "US" => Rate(s.rates.usdTwd.GetOr(31.8), true)
      case "HK" => Rate(s.rates.hkdTwd.GetOr(4.05), true)
      case "CN" => Rate(s.rates.cnyTwd.GetOr(4.73), true)
      case _ => Rate(1.0, false)
    else
      match market
      case "CN" => Rate(1.0, false)
      case "HK" => Rate(s.rates.hkdCny.GetOr(0.92), true)
      case "US" => Rate(s.rates.usdCny.GetOr(7.25), true)
      case "TW" => Rate(s.rates.twdCny.GetOr(0.222), true)
      case _ => Rate(1.0, false)
  }

  function QuotedPrice(quotes: Quotes, pos: Position): Option<real> {
    var key := KeyOf(pos.market, pos.symbol);
    if key in quotes then quotes[key].price.Or(pos.price) else pos.price
  }

  function QuotedChange(quotes: Quotes, pos: Position): Option<real> {
    var key := KeyOf(pos.market, pos.symbol);
    if key in quotes then quotes[key].changePct.Or(pos.changePct) else pos.changePct
  }

  function CostOf(s: Summary, pos: Position): real {
    pos.costPrice * pos.quantity * GetRate(s, pos.market).rate
  }

  function Yesterday(price: real, changePct: real): real
    requires changePct != -100.0
  {
    price / (1.0 + changePct / 100.0)
  }

  function DayGain(price: real, prev: real, quantity: real, rate: real): real {
    Round2((price - prev) * quantity * rate)
  }

  /** The daily profit, if yesterday's price can be derived and is positive. */
  function DailyPnl(price: Option<real>, changePct: Option<real>, quantity: real, rate: real): Option<real> {
    if price.None? || changePct.None? || changePct.value == -100.0 then None
    else
      var prev := Yesterday(price.value, changePct.value);
      if prev > 0.0 then Some(DayGain(price.value, prev, quantity, rate)) else None
  }

  function FiguresOf(cost: real, price: Option<real>, changePct: Option<real>, quantity: real, r: Rate): Figures {
    var daily := DailyPnl(price, changePct, quantity, r.rate);
    var dailyPct := if daily.Some? then Some(Round2(changePct.value)) else None;
    var foreign := if r.isForeign then Some(r.rate) else None;
    if price.None? then Figures(None, None, None, None, None, daily, dailyPct, foreign)
    else
      var value := price.value * quantity;
      var valueBase := value * r.rate;
      var pnl := valueBase - cost;
      Figures(Some(price.value * r.rate), Some(value), Some(valueBase), Some(pnl),
              Some(if cost > 0.0 then pnl / cost * 100.0 else 0.0), daily, dailyPct, foreign)
  }

  function Revalue(s: Summary, quotes: Quotes, pos: Position): Position {
    var price, changePct := QuotedPrice(quotes, pos), QuotedChange(quotes, pos);
    pos.(price := price, changePct := changePct,
         figures := FiguresOf(CostOf(s, pos), price, changePct, pos.quantity, GetRate(s, pos.market)))
  }

  // ---- Accounts and the portfolio ----------------------------------------------------------------------

  function Sum<T>(f: T -> real, items: seq<T>): real {
    if items == [] then 0.0 else Sum(f, items[..|items| - 1]) + f(items[|items| - 1])
  }

  function MapSeq<T, U>(f: T -> U, items: seq<T>): seq<U> {
    seq(|items|, i requires 0 <= i < |items| => f(items[i]))
  }

  function ValueOf(pos: Position): real {
    pos.figures.marketValueBase.GetOr(0.0)
  }

  function DailyOf(pos: Position): real {
    pos.figures.dailyPnl.GetOr(0.0)
  }

  function MarketValue(positions: seq<Position>): real {
    Sum(ValueOf, positions)
  }

  function Cost(s: Summary, positions: seq<Position>): real {
    Sum((p: Position) => CostOf(s, p), positions)
  }

  function DailyTotal(positions: seq<Position>): real {
    Sum(DailyOf, positions)
  }

  function RoundedTotals(marketValue: real, cost: real, daily: real, funds: real): Totals {
    var pnl := marketValue - cost;
    Totals(Round2(marketValue), Round2(cost), Round2(pnl),
           Round2(if cost > 0.0 then pnl / cost * 100.0 else 0.0), Round2(daily), Round2(marketValue + funds))
  }

  function RevalueAccount(s: Summary, quotes: Quotes, account: Account): Account {
    var positions := MapSeq(p => Revalue(s, quotes, p), account.positions);
    account.(positions := positions,
             totals := RoundedTotals(MarketValue(positions), Cost(s, positions), DailyTotal(positions), account.funds))
  }

  function RevalueAccounts(s: Summary, quotes: Quotes, accounts: seq<Account>): seq<Account> {
    MapSeq(a => RevalueAccount(s, quotes, a), accounts)
  }

  /** What mergePortfolioQuotes returns: grand figures are rounded sums of unrounded account figures. */
  function Merged(s: Summary, quotes: Quotes): Summary {
    var accounts := RevalueAccounts(s, quotes, s.accounts);
    var marketValue := Sum((a: Account) => MarketValue(a.positions), accounts);
    var cost := Sum((a: Account) => Cost(s, a.positions), accounts);
    var daily := Sum((a: Account) => DailyTotal(a.positions), accounts);
    var funds := Sum((a: Account) => a.funds, accounts);
    s.(accounts := accounts, total := RoundedTotals(marketValue, cost, daily, funds), funds := Round2(funds))
  }

  lemma {:induction false} SumSnoc<T>(f: T -> real, items: seq<T>, x: T)
    ensures Sum(f, items + [x]) == Sum(f, items) + f(x)
  {}

  lemma {:induction false} MapSnoc<T, U>(f: T -> U, items: seq<T>, n: nat)
    requires n < |items|
    ensures MapSeq(f, items[..n + 1]) == MapSeq(f, items[..n]) + [f(items[n])]
  {}

  lemma {:induction false} AddPosition(s: Summary, positions: seq<Position>, next: Position)
    ensures MarketValue(positions + [next]) == MarketValue(positions) + ValueOf(next)
    ensures Cost(s, positions + [next]) == Cost(s, positions) + CostOf(s, next)
    ensures DailyTotal(positions + [next]) == DailyTotal(positions) + DailyOf(next)
  {}

  lemma {:induction false} CostIgnoresQuotes(s: Summary, quotes: Quotes, pos: Position)
    ensures CostOf(s, Revalue(s, quotes, pos)) == CostOf(s, pos)
  {}

  /** The inner loop: the running totals of one account. */
  method MergeAccount(s: Summary, quotes: Quotes, account: Account)
    returns (merged: Account, accMarketValue: real, accCost: real, accDailyPnl: real)
    ensures merged == RevalueAccount(s, quotes, account)
    ensures accMarketValue == MarketValue(merged.positions)
    ensures accCost == Cost(s, merged.positions)
    ensures accDailyPnl == DailyTotal(merged.positions)
  {
    var positions: seq<Position> := [];
    accMarketValue, accCost, accDailyPnl := 0.0, 0.0, 0.0;
    ghost var revalue := (p: Position) => Revalue(s, quotes, p);
    for i := 0 to |account.positions|
      invariant positions == MapSeq(revalue, account.positions[..i])
      invariant accMarketValue == MarketValue(positions)
      invariant accCost == Cost(s, positions)
      invariant accDailyPnl == DailyTotal(positions)
    {
      var pos := account.positions[i];
      var price, changePct := QuotedPrice(quotes, pos), QuotedChange(quotes, pos);
      var r := GetRate(s, pos.market);
      var cost := CostOf(s, pos);
      accCost := accCost + cost;
      var figures := FiguresOf(cost, price, changePct, pos.quantity, r);
      if price.Some? {
        accMarketValue := accMarketValue + figures.marketValueBase.value;
      }
      if figures.dailyPnl.Some? {
        accDailyPnl := accDailyPnl + figures.dailyPnl.value;
      }
      var next := pos.(price := price, changePct := changePct, figures := figures);
      assert next == Revalue(s, quotes, pos);
      CostIgnoresQuotes(s, quotes, pos);
      AddPosition(s, positions, next);
      MapSnoc(revalue, account.positions, i);
      positions := positions + [next];
    }
    assert account.positions[..|account.positions|] == account.positions;
    merged := account.(positions := positions,
                       totals := RoundedTotals(accMarketValue, accCost, accDailyPnl, account.funds));
  }

  /** mergePortfolioQuotes */
  method MergePortfolioQuotes(portfolio: Option<Summary>, quotes: Quotes) returns (r: Option<Summary>)
    ensures portfolio.None? ==> r.None?
    ensures portfolio.Some? ==> r == Some(Merged(portfolio.value, quotes))
  {
    if portfolio.None? {
      return None;
    }
    var s := portfolio.value;
    var accounts: seq<Account> := [];
    var grandMarketValue, grandCost, grandAvailable, grandDailyPnl := 0.0, 0.0, 0.0, 0.0;
    ghost var revalue := (a: Account) => RevalueAccount(s, quotes, a);
    for i := 0 to |s.accounts|
      invariant accounts == MapSeq(revalue, s.accounts[..i])
      invariant grandMarketValue == Sum((a: Account) => MarketValue(a.positions), accounts)
      invariant grandCost == Sum((a: Account) => Cost(s, a.positions), accounts)
      invariant grandDailyPnl == Sum((a: Account) => DailyTotal(a.positions), accounts)
      invariant grandAvailable == Sum((a: Account) => a.funds, accounts)
    {
      var account, accMarketValue, accCost, accDailyPnl := MergeAccount(s, quotes, s.accounts[i]);
      grandMarketValue := grandMarketValue + accMarketValue;
      grandCost := grandCost + accCost;
      grandAvailable := grandAvailable + s.accounts[i].funds;
      grandDailyPnl := grandDailyPnl + accDailyPnl;
      SumSnoc((a: Account) => MarketValue(a.positions), accounts, account);
      SumSnoc((a: Account) => Cost(s, a.positions), accounts, account);
      SumSnoc((a: Account) => DailyTotal(a.positions), accounts, account);
      SumSnoc((a: Account) => a.funds, accounts, account);
      MapSnoc(revalue, s.accounts, i);
      accounts := accounts + [account];
    }
    assert s.accounts[..|s.accounts|] == s.accounts;
    r := Some(s.(accounts := accounts,
                 total := RoundedTotals(grandMarketValue, grandCost, grandDailyPnl, grandAvailable),
                 funds := Round2(grandAvailable)));
  }

  // ---- What the figures mean ------------------------------------------------------------------------------

  /** The rate of every market, from the portfolio's rates where it has one. */
  lemma {:induction false} RatesPerMarket(s: Summary, market: string)
    ensures var inTwd, rates, r := s.baseCurrency in {"", "TWD"}, s.rates, GetRate(s, market);
            && (inTwd && market == "US" ==> r == Rate(if rates.usdTwd.Some? then rates.usdTwd.value else 31.8, true))
            && (inTwd && market == "HK" ==> r == Rate(if rates.hkdTwd.Some? then rates.hkdTwd.value else 4.05, true))
            && (inTwd && market == "CN" ==> r == Rate(if rates.cnyTwd.Some? then rates.cnyTwd.value else 4.73, true))
            && (!inTwd && market == "HK" ==> r == Rate(if rates.hkdCny.Some? then rates.hkdCny.value else 0.92, true))
            && (!inTwd && market == "US" ==> r == Rate(if rates.usdCny.Some? then rates.usdCny.value else 7.25, true))
            && (!inTwd && market == "TW" ==> r == Rate(if rates.twdCny.Some? then rates.twdCny.value else 0.222, true))
            && (market !in {"US", "HK", if inTwd then "CN" else "TW"} ==> r == Rate(1.0, false))
  {}

  /** A position after merging: quoted where the quote has a value, everything else but the figures as before. */
  lemma {:induction false} QuotesReachPositions(s: Summary, quotes: Quotes, pos: Position)
    ensures var p, key := Revalue(s, quotes, pos), pos.market + ":" + pos.symbol;
            && p == pos.(price := p.price, changePct := p.changePct, figures := p.figures)
            && p.price == (if key in quotes && quotes[key].price.Some? then quotes[key].price else pos.price)
            && p.changePct == (if key in quotes && quotes[key].changePct.Some? then quotes[key].changePct else pos.changePct)
  {}

  lemma {:induction false} Distribute(price: real, cost: real, quantity: real, rate: real)
    ensures price * quantity * rate == price * rate * quantity
    ensures price * quantity * rate - cost * quantity * rate == (price - cost) * quantity * rate
  {
    assert price * quantity * rate == price * (quantity * rate);
    assert cost * quantity * rate == cost * (quantity * rate);
    assert (price - cost) * quantity * rate == (price - cost) * (quantity * rate);
  }

  /** The figures of a position, by what they say about its price, its quantity and the rate of its market. */
  predicate AreFigures(f: Figures, price: Option<real>, costPrice: real, quantity: real, r: Rate) {
    var cost := costPrice * quantity * r.rate;
    && f.exchangeRate == (if r.isForeign then Some(r.rate) else None)
    && (price.None? ==> f.priceBase == f.marketValue == f.marketValueBase == f.pnl == f.pnlPct == None)
    && (price.Some? ==>
          && f.priceBase.Some? && f.marketValue.Some? && f.marketValueBase.Some? && f.pnl.Some? && f.pnlPct.Some?
          && f.priceBase.value == price.value * r.rate
          && f.marketValue.value == price.value * quantity
          && f.marketValueBase.value == f.marketValue.value * r.rate == f.priceBase.value * quantity
          && f.pnl.value == (price.value - costPrice) * quantity * r.rate
          && (if cost > 0.0 then f.pnlPct.value * cost == 100.0 * f.pnl.value else f.pnlPct.value == 0.0))
  }

  lemma {:induction false} FiguresOfMean(cost: real, price: Option<real>, changePct: Option<real>, costPrice: real,
                                         quantity: real, r: Rate)
    requires cost == costPrice * quantity * r.rate
    ensures AreFigures(FiguresOf(cost, price, changePct, quantity, r), price, costPrice, quantity, r)
  {
    if price.Some? {
      Distribute(price.value, costPrice, quantity, r.rate);
      Percentage(price.value * quantity * r.rate - cost, cost, 0.0);
    }
    hide DailyPnl;
  }

  lemma {:induction false} FiguresMean(s: Summary, quotes: Quotes, pos: Position)
    ensures var p := Revalue(s, quotes, pos);
            AreFigures(p.figures, p.price, pos.costPrice, pos.quantity, GetRate(s, pos.market))
  {
    FiguresOfMean(CostOf(s, pos), QuotedPrice(quotes, pos), QuotedChange(quotes, pos), pos.costPrice, pos.quantity,
                  GetRate(s, pos.market));
    hide FiguresOf, AreFigures, GetRate, QuotedPrice, QuotedChange;
  }

  lemma {:induction false} Percentage(part: real, whole: real, pct: real)
    ensures whole > 0.0 ==> part / whole * 100.0 * whole == 100.0 * part
    ensures whole > 0.0 && pct * whole == 100.0 * part ==> part / whole * 100.0 == pct
  {
    if whole > 0.0 {
      Quotient(part / whole, whole, part);
      Quotient(pct, whole, 100.0 * part);
      Quotient(part / whole * 100.0, whole, 100.0 * part);
    }
  }

  predicate IsYesterday(prev: real, price: real, changePct: real) {
    prev * (1.0 + changePct / 100.0) == price
  }

  lemma {:induction false} Quotient(x: real, y: real, z: real)
    requires y != 0.0
    ensures x * y == z <==> x == z / y
  {}

  /** Every change but -100% leads from exactly one price to today's. */
  lemma {:induction false} YesterdayIsUnique(prev: real, price: real, changePct: real)
    requires changePct != -100.0
    ensures IsYesterday(prev, price, changePct) <==> prev == Yesterday(price, changePct)
  {
    var factor := 1.0 + changePct / 100.0;
    assert factor != 0.0;
    Quotient(prev, factor, price);
  }

  lemma {:induction false} DailyPnlMeans(price: real, changePct: real, quantity: real, rate: real, prev: real)
    requires changePct != -100.0 && IsYesterday(prev, price, changePct)
    ensures DailyPnl(Some(price), Some(changePct), quantity, rate)
         == if prev > 0.0 then Some(DayGain(price, prev, quantity, rate)) else None
  {
    YesterdayIsUnique(prev, price, changePct);
    hide Yesterday, IsYesterday, DayGain;
  }

  lemma {:induction false} DailyOfRevalued(s: Summary, quotes: Quotes, pos: Position)
    ensures var p := Revalue(s, quotes, pos);
            var daily := DailyPnl(p.price, p.changePct, pos.quantity, GetRate(s, pos.market).rate);
            && p.figures.dailyPnl == daily
            && p.figures.dailyPnlPct == (if daily.Some? then Some(Round2(p.changePct.value)) else None)
  {
    hide Round2, GetRate, QuotedPrice, QuotedChange, Yesterday, DayGain;
  }

  /**
   The daily profit is shown iff the price `prev` from which the change leads to today's is
   positive, and is then the gain over it, rounded.
   */
  lemma {:induction false} DailyMeans(s: Summary, quotes: Quotes, pos: Position, price: real, changePct: real,
                                      prev: real, gain: real)
    requires var p := Revalue(s, quotes, pos); p.price == Some(price) && p.changePct == Some(changePct)
    requires changePct != -100.0 && prev * (1.0 + changePct / 100.0) == price
    requires gain == (price - prev) * pos.quantity * GetRate(s, pos.market).rate
    ensures var f := Revalue(s, quotes, pos).figures;
            && f.dailyPnl == (if prev > 0.0 then Some(Round2(gain)) else None)
            && f.dailyPnlPct == (if prev > 0.0 then Some(Round2(changePct)) else None)
  {
    var rate := GetRate(s, pos.market).rate;
    DailyOfRevalued(s, quotes, pos);
    DailyPnlMeans(price, changePct, pos.quantity, rate, prev);
    DayGainIs(price, prev, pos.quantity, rate, gain);
    hide Revalue, GetRate, Round2, DailyPnl, DayGain;
  }

  lemma {:induction false} DayGainIs(price: real, prev: real, quantity: real, rate: real, gain: real)
    requires gain == (price - prev) * quantity * rate
    ensures DayGain(price, prev, quantity, rate) == Round2(gain)
  {}

  /** Without a price or a change, or at -100%, none is shown. */
  lemma {:induction false} NoDaily(s: Summary, quotes: Quotes, pos: Position)
    requires var p := Revalue(s, quotes, pos); p.price.None? || p.changePct.None? || p.changePct.value == -100.0
    ensures var f := Revalue(s, quotes, pos).figures; f.dailyPnl == f.dailyPnlPct == None
  {
    DailyOfRevalued(s, quotes, pos);
    hide Revalue, GetRate;
  }

  lemma {:induction false} FloorIs(y: real, k: int)
    ensures y.Floor == k <==> k as real <= y < k as real + 1.0
  {}

  /** Rounding to cents, halves up. */
  lemma {:induction false} RoundsHalfUp(x: real, k: int)
    ensures Round2(x) == k as real / 100.0 <==> k as real - 0.5 <= 100.0 * x < k as real + 0.5
  {
    var y := 100.0 * x + 0.5;
    FloorIs(y, k);
    assert y.Floor as real / 100.0 == k as real / 100.0 <==> y.Floor == k;
  }

  // ---- What the totals mean ---------------------------------------------------------------------------------

  /** A position's worth under some quotes: its quoted price, else its own, else nothing. */
  function Worth(s: Summary, quotes: Quotes, pos: Position): real {
    var key := pos.market + ":" + pos.symbol;
    var price := if key in quotes && quotes[key].price.Some? then quotes[key].price else pos.price;
    if price.Some? then price.value * pos.quantity * GetRate(s, pos.market).rate else 0.0
  }

  lemma {:induction false} SumOfMap<T, U>(f: U -> real, g: T -> U, h: T -> real, items: seq<T>)
    requires forall x | x in items :: f(g(x)) == h(x)
    ensures Sum(f, MapSeq(g, items)) == Sum(h, items)
  {
    if items == [] {
    } else {
      var init := items[..|items| - 1];
      SumOfMap(f, g, h, init);
      assert MapSeq(g, items)[..|init|] == MapSeq(g, init);
      assert items[|items| - 1] in items;
    }
  }

  lemma {:induction false} WorthOfPosition(s: Summary, quotes: Quotes, pos: Position)
    ensures ValueOf(Revalue(s, quotes, pos)) == Worth(s, quotes, pos)
    ensures CostOf(s, Revalue(s, quotes, pos)) == pos.costPrice * pos.quantity * GetRate(s, pos.market).rate
  {
    FiguresMean(s, quotes, pos);
    QuotesReachPositions(s, quotes, pos);
    hide Revalue, GetRate;
  }

  /** An account's market value and cost, in terms of the positions it had and the quotes alone. */
  lemma {:induction false} AccountWorth(s: Summary, quotes: Quotes, account: Account)
    ensures var ps := RevalueAccount(s, quotes, account).positions;
            && MarketValue(ps) == Sum((o: Position) => Worth(s, quotes, o), account.positions)
            && Cost(s, ps) == Sum((o: Position) => o.costPrice * o.quantity * GetRate(s, o.market).rate, account.positions)
  {
    hide Worth, ValueOf, CostOf, Revalue, GetRate;
    var revalue := p => Revalue(s, quotes, p);
    var cost := (o: Position) => o.costPrice * o.quantity * GetRate(s, o.market).rate;
    forall p: Position
      ensures ValueOf(Revalue(s, quotes, p)) == Worth(s, quotes, p) && CostOf(s, Revalue(s, quotes, p)) == cost(p)
    {
      WorthOfPosition(s, quotes, p);
    }
    SumOfMap(ValueOf, revalue, (o: Position) => Worth(s, quotes, o), account.positions);
    SumOfMap((p: Position) => CostOf(s, p), revalue, cost, account.positions);
  }

  /** The shown figures of an account: each exact figure rounded once. */
  lemma {:induction false} AccountTotalsMean(s: Summary, quotes: Quotes, account: Account, pct: real)
    ensures var a := RevalueAccount(s, quotes, account);
            var value := Sum((o: Position) => Worth(s, quotes, o), account.positions);
            var cost := Sum((o: Position) => o.costPrice * o.quantity * GetRate(s, o.market).rate, account.positions);
            && a == account.(positions := a.positions, totals := a.totals) && |a.positions| == |account.positions|
            && a.totals.marketValue == Round2(value)
            && a.totals.cost == Round2(cost)
            && a.totals.pnl == Round2(value - cost)
            && a.totals.assets == Round2(value + account.funds)
            && (if cost > 0.0 then pct * cost == 100.0 * (value - cost) ==> a.totals.pnlPct == Round2(pct)
                else a.totals.pnlPct == Round2(0.0))
  {
    AccountWorth(s, quotes, account);
    var cost := Sum((o: Position) => o.costPrice * o.quantity * GetRate(s, o.market).rate, account.positions);
    var value := Sum((o: Position) => Worth(s, quotes, o), account.positions);
    Percentage(value - cost, cost, pct);
    hide Worth, Sum, GetRate, Round2;
  }

  // ---- Merging is an action of quote overlay --------------------------------------------------------------

  /** Quotes laid over older ones: a field the newer quote lacks is taken from the older one. */
  function Overlay(older: Quotes, newer: Quotes): Quotes {
    map k | k in older.Keys + newer.Keys ::
      if k !in newer then older[k]
      else if k !in older then newer[k]
      else Quote(newer[k].price.Or(older[k].price), newer[k].changePct.Or(older[k].changePct))
  }

  lemma {:induction false} RevalueTwice(s: Summary, t: Summary, q1: Quotes, q2: Quotes, pos: Position)
    requires t.baseCurrency == s.baseCurrency && t.rates == s.rates
    ensures Revalue(t, q2, Revalue(s, q1, pos)) == Revalue(s, Overlay(q1, q2), pos)
  {
    var once := Revalue(s, q1, pos);
    assert GetRate(t, pos.market) == GetRate(s, pos.market);
    assert CostOf(t, once) == CostOf(s, pos);
    hide FiguresOf, GetRate, CostOf;
    assert QuotedPrice(q2, once) == QuotedPrice(Overlay(q1, q2), pos);
    assert QuotedChange(q2, once) == QuotedChange(Overlay(q1, q2), pos);
  }

  lemma {:induction false} SumSame<T>(f: T -> real, g: T -> real, items: seq<T>)
    requires forall x | x in items :: f(x) == g(x)
    ensures Sum(f, items) == Sum(g, items)
  {
    if items == [] {
    } else {
      SumSame(f, g, items[..|items| - 1]);
    }
  }

  lemma {:induction false} CostDependsOnRates(s: Summary, t: Summary, positions: seq<Position>)
    requires t.baseCurrency == s.baseCurrency && t.rates == s.rates
    ensures Cost(t, positions) == Cost(s, positions)
  {
    SumSame((p: Position) => CostOf(t, p), (p: Position) => CostOf(s, p), positions);
  }

  lemma {:induction false} RevalueAccountTwice(s: Summary, t: Summary, q1: Quotes, q2: Quotes, account: Account)
    requires t.baseCurrency == s.baseCurrency && t.rates == s.rates
    ensures RevalueAccount(t, q2, RevalueAccount(s, q1, account)) == RevalueAccount(s, Overlay(q1, q2), account)
  {
    var once := RevalueAccount(s, q1, account);
    var twice := RevalueAccount(t, q2, once);
    var direct := RevalueAccount(s, Overlay(q1, q2), account);
    forall i | 0 <= i < |account.positions| ensures twice.positions[i] == direct.positions[i] {
      RevalueTwice(s, t, q1, q2, account.positions[i]);
    }
    assert twice.positions == direct.positions;
    CostDependsOnRates(s, t, twice.positions);
  }

  /**
   Merging q1 and then q2 is merging their overlay once: for every account, position and total
   of the whole portfolio.
   */
  lemma {:induction false} MergeIsAnAction(s: Summary, q1: Quotes, q2: Quotes)
    ensures Merged(Merged(s, q1), q2) == Merged(s, Overlay(q1, q2))
  {
    var t := Merged(s, q1);
    var twice := RevalueAccounts(t, q2, t.accounts);
    var direct := RevalueAccounts(s, Overlay(q1, q2), s.accounts);
    forall i | 0 <= i < |s.accounts| ensures twice[i] == direct[i] {
      RevalueAccountTwice(s, t, q1, q2, s.accounts[i]);
    }
    assert twice == direct;
    forall a | a in twice ensures Cost(t, a.positions) == Cost(s, a.positions) {
      CostDependsOnRates(s, t, a.positions);
    }
    SumSame((a: Account) => Cost(t, a.positions), (a: Account) => Cost(s, a.positions), twice);
  }

  /** Merging the same quotes again changes nothing, totals included. */
  lemma {:induction false} MergeAgainIsNoOp(s: Summary, quotes: Quotes)
    ensures Merged(Merged(s, quotes), quotes) == Merged(s, quotes)
  {
    MergeIsAnAction(s, quotes, quotes);
    assert Overlay(quotes, quotes) == quotes;
  }

  /**
   The page combines quotes by object spread, which replaces whole entries.  That is the overlay
   iff no newer entry lacks a field that the older one has.
   */
  lemma {:induction false} SpreadIsOverlay(older: Quotes, newer: Quotes)
    ensures older + newer == Overlay(older, newer) <==>
            forall k | k in older && k in newer ::
              && (newer[k].price.None? ==> older[k].price.None?)
              && (newer[k].changePct.None? ==> older[k].changePct.None?)
  {}

  /** A newer quote without a price makes a spread forget the price that merging one after the other keeps. */
  lemma {:induction false} SpreadForgetsAPrice(s: Summary, pos: Position)
    requires pos.price.None?
    ensures var key := KeyOf(pos.market, pos.symbol);
            var older, newer := map[key := Quote(Some(10.0), None)], map[key := Quote(None, None)];
            && Revalue(s, older + newer, pos).price == None
            && Revalue(s, newer, Revalue(s, older, pos)).price == Some(10.0)
  {}

  // ---- Rounding ---------------------------------------------------------------------------------------------

  ghost predicate Near(x: real, y: real, e: real) {
    -e <= x - y <= e
  }

  lemma {:induction false} RoundingError(x: real)
    ensures Near(Round2(x), x, 0.005)
  {}

  lemma {:induction false} SumNear<T>(f: T -> real, g: T -> real, items: seq<T>, e: real)
    requires forall x | x in items :: Near(f(x), g(x), e)
    ensures Near(Sum(f, items), Sum(g, items), e * |items| as real)
  {
    if items == [] {
      assert |items| as real == 0.0 && e * 0.0 == 0.0;
    } else {
      var init := items[..|items| - 1];
      SumNear(f, g, init, e);
      assert items[|items| - 1] in items;
      var n := |init| as real;
      assert |items| as real == n + 1.0 && e * (n + 1.0) == e * n + e;
    }
  }

  lemma {:induction false} GrandNearSum<T>(exact: T -> real, rounded: T -> real, items: seq<T>)
    requires forall x | x in items :: rounded(x) == Round2(exact(x))
    ensures Near(Round2(Sum(exact, items)), Sum(rounded, items), 0.005 * (|items| + 1) as real)
  {
    forall x | x in items ensures Near(rounded(x), exact(x), 0.005) {
      RoundingError(exact(x));
    }
    SumNear(rounded, exact, items, 0.005);
    RoundingError(Sum(exact, items));
  }

  lemma {:induction false} SumPlus<T>(f: T -> real, g: T -> real, h: T -> real, items: seq<T>)
    requires forall x | x in items :: h(x) == f(x) + g(x)
    ensures Sum(h, items) == Sum(f, items) + Sum(g, items)
  {
    if items == [] {
    } else {
      SumPlus(f, g, h, items[..|items| - 1]);
      assert items[|items| - 1] in items;
    }
  }

  /** The exact figures of an account and the sums of them that the grand totals round. */
  function ExactTotals(s: Summary, a: Account): Totals {
    RoundedTotals(MarketValue(a.positions), Cost(s, a.positions), DailyTotal(a.positions), a.funds)
  }

  lemma {:induction false} AccountFigures(s: Summary, quotes: Quotes, a: Account)
    requires a in Merged(s, quotes).accounts
    ensures a.totals == ExactTotals(s, a)
  {}

  lemma {:induction false} SumMinus<T>(f: T -> real, g: T -> real, h: T -> real, items: seq<T>)
    requires forall x | x in items :: h(x) == f(x) - g(x)
    ensures Sum(h, items) == Sum(f, items) - Sum(g, items)
  {
    SumPlus(h, g, f, items);
  }

  lemma {:induction false} GrandFigures(s: Summary, quotes: Quotes)
    ensures var m := Merged(s, quotes);
            && m == s.(accounts := m.accounts, total := m.total, funds := m.funds) && |m.accounts| == |s.accounts|
            && m.funds == Round2(Sum((a: Account) => a.funds, m.accounts))
            && m.total.marketValue == Round2(Sum((a: Account) => MarketValue(a.positions), m.accounts))
            && m.total.cost == Round2(Sum((a: Account) => Cost(s, a.positions), m.accounts))
            && m.total.pnl == Round2(Sum((a: Account) => MarketValue(a.positions) - Cost(s, a.positions), m.accounts))
            && m.total.dailyPnl == Round2(Sum((a: Account) => DailyTotal(a.positions), m.accounts))
            && m.total.assets == Round2(Sum((a: Account) => MarketValue(a.positions) + a.funds, m.accounts))
  {
    hide Round2, MarketValue, Cost, DailyTotal, Sum, RevalueAccount;
    var accounts := Merged(s, quotes).accounts;
    var value := (a: Account) => MarketValue(a.positions);
    var cost := (a: Account) => Cost(s, a.positions);
    SumMinus(value, cost, (a: Account) => MarketValue(a.positions) - Cost(s, a.positions), accounts);
    SumPlus(value, (a: Account) => a.funds, (a: Account) => MarketValue(a.positions) + a.funds, accounts);
  }

  /** Of n accounts, each grand figure is within 0.005 (n + 1) of the sum of the account figures. */
  lemma {:induction false} RoundingDrift(s: Summary, quotes: Quotes)
    ensures var m := Merged(s, quotes);
            var bound := 0.005 * (|s.accounts| + 1) as real;
            && |m.accounts| == |s.accounts|
            && Near(m.total.marketValue, Sum((a: Account) => a.totals.marketValue, m.accounts), bound)
            && Near(m.total.cost, Sum((a: Account) => a.totals.cost, m.accounts), bound)
            && Near(m.total.pnl, Sum((a: Account) => a.totals.pnl, m.accounts), bound)
            && Near(m.total.assets, Sum((a: Account) => a.totals.assets, m.accounts), bound)
  {
    GrandFigures(s, quotes);
    hide Merged, MarketValue, Cost, DailyTotal, Round2, Near, Sum;
    var accounts := Merged(s, quotes).accounts;
    forall a | a in accounts ensures a.totals == ExactTotals(s, a) {
      AccountFigures(s, quotes, a);
    }
    GrandNearSum((a: Account) => MarketValue(a.positions), (a: Account) => a.totals.marketValue, accounts);
    GrandNearSum((a: Account) => Cost(s, a.positions), (a: Account) => a.totals.cost, accounts);
    GrandNearSum((a: Account) => MarketValue(a.positions) - Cost(s, a.positions), (a: Account) => a.totals.pnl, accounts);
    GrandNearSum((a: Account) => MarketValue(a.positions) + a.funds, (a: Account) => a.totals.assets, accounts);
  }

  // ---- The daily figure is exact ------------------------------------------------------------------------------

  function Cents(k: int): real {
    k as real / 100.0
  }

  ghost predicate IsCents(x: real) {
    exists k: int :: x == Cents(k)
  }

  lemma {:induction false} RoundOfCents(x: real)
    requires IsCents(x)
    ensures Round2(x) == x
  {
    var k: int :| x == Cents(k);
    assert (100.0 * x + 0.5).Floor == k;
  }

  lemma {:induction false} SumOfCents<T>(f: T -> real, items: seq<T>)
    requires forall x | x in items :: IsCents(f(x))
    ensures IsCents(Sum(f, items))
  {
    if items == [] {
      assert 0.0 == Cents(0);
    } else {
      var init, last := items[..|items| - 1], items[|items| - 1];
      SumOfCents(f, init);
      assert last in items;
      var j: int :| Sum(f, init) == Cents(j);
      var k: int :| f(last) == Cents(k);
      assert Sum(f, items) == Cents(j + k);
    }
  }

  lemma {:induction false} RoundIsCents(x: real)
    ensures IsCents(Round2(x))
  {
    assert Round2(x) == Cents((100.0 * x + 0.5).Floor);
  }

  lemma {:induction false} DayGainIsCents(price: real, prev: real, quantity: real, rate: real)
    ensures IsCents(DayGain(price, prev, quantity, rate))
  {
    var gain := (price - prev) * quantity * rate;
    RoundIsCents(gain);
    assert DayGain(price, prev, quantity, rate) == Round2(gain);
  }

  lemma {:induction false} DailyIsCents(price: Option<real>, changePct: Option<real>, quantity: real, rate: real)
    ensures IsCents(DailyPnl(price, changePct, quantity, rate).GetOr(0.0))
  {
    assert 0.0 == Cents(0);
    if DailyPnl(price, changePct, quantity, rate).Some? {
      hide Yesterday, DayGain, IsCents;
      DayGainIsCents(price.value, Yesterday(price.value, changePct.value), quantity, rate);
    }
  }

  lemma {:induction false} AccountDailyIsCents(s: Summary, quotes: Quotes, account: Account)
    ensures IsCents(DailyTotal(RevalueAccount(s, quotes, account).positions))
  {
    var positions := RevalueAccount(s, quotes, account).positions;
    hide DailyPnl, IsCents, CostOf, GetRate;
    forall p | p in positions ensures IsCents(DailyOf(p)) {
      var j :| 0 <= j < |positions| && positions[j] == p;
      assert p == Revalue(s, quotes, account.positions[j]);
      DailyIsCents(p.price, p.changePct, p.quantity, GetRate(s, p.market).rate);
    }
    SumOfCents(DailyOf, positions);
  }

  /** The daily profit of an account and of the portfolio is the sum of the positions' shown ones. */
  lemma {:induction false} DailyTotalsAreExact(s: Summary, quotes: Quotes)
    ensures var m := Merged(s, quotes);
            && (forall a | a in m.accounts :: a.totals.dailyPnl == DailyTotal(a.positions))
            && m.total.dailyPnl == Sum((a: Account) => DailyTotal(a.positions), m.accounts)
  {
    GrandFigures(s, quotes);
    var accounts := Merged(s, quotes).accounts;
    hide DailyTotal, MarketValue, Cost, IsCents, Round2, Sum;
    var daily := (a: Account) => DailyTotal(a.positions);
    forall a | a in accounts ensures IsCents(daily(a)) && a.totals.dailyPnl == daily(a) {
      var i :| 0 <= i < |accounts| && accounts[i] == a;
      AccountDailyIsCents(s, quotes, s.accounts[i]);
      AccountFigures(s, quotes, a);
      RoundOfCents(DailyTotal(a.positions));
    }
    SumOfCents(daily, accounts);
    RoundOfCents(Sum(daily, accounts));
  }

  // ---- Unpriced positions ---------------------------------------------------------------------------------------

  /** A position's part in its account's profit: a position without a price counts as lost. */
  function PnlShare(s: Summary, pos: Position): real {
    if pos.figures.pnl.Some? then pos.figures.pnl.value else -CostOf(s, pos)
  }

  lemma {:induction false} ShareOfPosition(s: Summary, quotes: Quotes, pos: Position)
    ensures var p := Revalue(s, quotes, pos);
            && ValueOf(p) == PnlShare(s, p) + CostOf(s, p)
            && (p.figures.pnl.None? <==> p.price.None?)
  {}

  /** The profit a position shows, and the cost it hides when it has no price. */
  function ShownPnl(pos: Position): real {
    pos.figures.pnl.GetOr(0.0)
  }

  function UnpricedCost(s: Summary, pos: Position): real {
    if pos.price.None? then CostOf(s, pos) else 0.0
  }

  lemma {:induction false} SharesOfAccount(s: Summary, quotes: Quotes, account: Account)
    ensures var ps := RevalueAccount(s, quotes, account).positions;
            forall p | p in ps ::
              && ValueOf(p) == PnlShare(s, p) + CostOf(s, p)
              && PnlShare(s, p) == ShownPnl(p) - UnpricedCost(s, p)
              && (p.figures.pnl.None? <==> p.price.None?)
  {
    var ps := RevalueAccount(s, quotes, account).positions;
    forall p | p in ps
      ensures ValueOf(p) == PnlShare(s, p) + CostOf(s, p) && PnlShare(s, p) == ShownPnl(p) - UnpricedCost(s, p)
              && (p.figures.pnl.None? <==> p.price.None?)
    {
      var i :| 0 <= i < |ps| && ps[i] == p;
      ShareOfPosition(s, quotes, account.positions[i]);
    }
  }

  /**
   An account's profit is that of its priced positions less the full cost of the unpriced ones;
   it is the sum of the profits its positions show iff those costs add up to nothing.
   */
  lemma {:induction false} UnpricedPositionsCountAsLost(s: Summary, quotes: Quotes, account: Account)
    ensures var a := RevalueAccount(s, quotes, account);
            var profit := MarketValue(a.positions) - Cost(s, a.positions);
            var shown, hidden := Sum(ShownPnl, a.positions), Sum((p: Position) => UnpricedCost(s, p), a.positions);
            && a.totals.pnl == Round2(profit)
            && profit == Sum((p: Position) => PnlShare(s, p), a.positions)
            && profit == shown - hidden
            && (profit == shown <==> hidden == 0.0)
            && (forall p | p in a.positions :: p.figures.pnl.None? <==> p.price.None?)
  {
    var ps := RevalueAccount(s, quotes, account).positions;
    var share := (p: Position) => PnlShare(s, p);
    var cost := (p: Position) => CostOf(s, p);
    var hidden := (p: Position) => UnpricedCost(s, p);
    SharesOfAccount(s, quotes, account);
    hide PnlShare, CostOf, Revalue, ValueOf, ShownPnl, UnpricedCost;
    SumPlus(share, cost, ValueOf, ps);
    SumMinus(ShownPnl, hidden, share, ps);
  }

  lemma {:induction false} SumOfOne<T>(f: T -> real, x: T)
    ensures Sum(f, [x]) == f(x)
  {
    assert [x][..0] == [];
  }

  /** One unpriced position bought for 100: the account loses 100 and the position shows nothing. */
  lemma {:induction false} UnpricedAccountLosesItsCost(s: Summary, account: Account, pos: Position)
    requires s.baseCurrency == "TWD" && pos.market == "TW" && pos.costPrice == 100.0 && pos.quantity == 1.0
    requires pos.price.None? && account.positions == [pos]
    ensures var a := RevalueAccount(s, map[], account);
            && a.totals.pnl == -100.0
            && |a.positions| == 1 && a.positions[0].figures.pnl == None
            && MarketValue(a.positions) - Cost(s, a.positions) != Sum(ShownPnl, a.positions)
  {
    var p := Revalue(s, map[], pos);
    var ps := RevalueAccount(s, map[], account).positions;
    assert ps == [p];
    assert CostOf(s, p) == 100.0 && ValueOf(p) == 0.0 && ShownPnl(p) == 0.0 && p.figures.pnl == None;
    SumOfOne(ValueOf, p);
    SumOfOne((q: Position) => CostOf(s, q), p);
    SumOfOne(ShownPnl, p);
    hide Revalue, CostOf, ShownPnl;
    assert MarketValue(ps) == 0.0 && Cost(s, ps) == 100.0 && Sum(ShownPnl, ps) == 0.0;
    assert Round2(-100.0) == -100.0;
  }

  // ---- Which quotes are asked for --------------------------------------------------------------------------------

  datatype Listing = Listing(symbol: string, market: string)

  function ListingKey(l: Listing): string {
    KeyOf(l.market, l.symbol)
  }

  function Keys(items: seq<Listing>): set<string> {
    set l | l in items :: ListingKey(l)
  }

  /** The first listing of every key, on enabled markets only, in order. */
  function FirstListings(enabled: set<string>, all: seq<Listing>): seq<Listing> {
    if all == [] then []
    else
      var before, last := FirstListings(enabled, all[..|all| - 1]), all[|all| - 1];
      if last.market !in enabled || ListingKey(last) in Keys(before) then before else before + [last]
  }

  /** Each enabled listing is asked for under its key, and no key is asked for twice. */
  lemma {:induction false} EveryListingOnce(enabled: set<string>, all: seq<Listing>)
    ensures var items := FirstListings(enabled, all);
            && (forall l | l in items :: l in all && l.market in enabled)
            && (forall l | l in all && l.market in enabled :: ListingKey(l) in Keys(items))
            && (forall i, j | 0 <= i < j < |items| :: ListingKey(items[i]) != ListingKey(items[j]))
  {
    if all == [] {
    } else {
      var init, last := all[..|all| - 1], all[|all| - 1];
      EveryListingOnce(enabled, init);
      var before, items := FirstListings(enabled, init), FirstListings(enabled, all);
      assert all == init + [last];
      if items != before {
        forall l | l in before ensures ListingKey(l) in Keys(before) {}
        assert forall k | k in Keys(before) :: k in Keys(items);
        assert last in items;
        assert ListingKey(last) in Keys(items);
      }
    }
  }

  function ListingsOf(positions: seq<Position>): seq<Listing> {
    MapSeq((p: Position) => Listing(p.symbol, p.market), positions)
  }

  function AllListings(accounts: seq<Account>): seq<Listing> {
    if accounts == [] then []
    else AllListings(accounts[..|accounts| - 1]) + ListingsOf(accounts[|accounts| - 1].positions)
  }

  lemma {:induction false} ListingsOfOneMore(stocks: seq<Listing>, accounts: seq<Account>, n: nat)
    requires n < |accounts|
    ensures stocks + AllListings(accounts[..n + 1])
         == stocks + AllListings(accounts[..n]) + ListingsOf(accounts[n].positions)
  {
    assert accounts[..n + 1][..n] == accounts[..n];
  }

  /** The key of a listing is the one under which positions look up their quotes. */
  lemma {:induction false} ListingKeysMatch(s: Summary, quotes: Quotes, pos: Position)
    ensures ListingKey(Listing(pos.symbol, pos.market)) == pos.market + ":" + pos.symbol == KeyOf(pos.market, pos.symbol)
  {}

  /** Positions are listed account by account, each with its own symbol and market. */
  lemma {:induction false} EveryPositionListed(accounts: seq<Account>, l: Listing)
    ensures l in AllListings(accounts) <==>
            exists a, p :: a in accounts && p in a.positions && l.symbol == p.symbol && l.market == p.market
  {
    if accounts == [] {
    } else {
      var init, last := accounts[..|accounts| - 1], accounts[|accounts| - 1];
      EveryPositionListed(init, l);
      assert accounts == init + [last];
      var listed := ListingsOf(last.positions);
      if p :| p in last.positions && l.symbol == p.symbol && l.market == p.market {
        var j :| 0 <= j < |last.positions| && last.positions[j] == p;
        assert listed[j] == l;
      }
      if l in listed {
        var j :| 0 <= j < |listed| && listed[j] == l;
        assert last.positions[j] in last.positions;
      }
    }
  }

  /** k is the first place of its key among the listings of enabled markets. */
  predicate IsFirstPlace(enabled: set<string>, all: seq<Listing>, k: nat) {
    && k < |all| && all[k].market in enabled
    && forall j | 0 <= j < k && all[j].market in enabled :: ListingKey(all[j]) != ListingKey(all[k])
  }

  lemma {:induction false} PlacesOfPrefix(enabled: set<string>, all: seq<Listing>, n: nat, k: nat)
    requires k < n <= |all|
    ensures IsFirstPlace(enabled, all, k) <==> IsFirstPlace(enabled, all[..n], k)
  {}

  /** A last listing is appended iff its place is the first of its key. */
  lemma {:induction false} LastPlace(enabled: set<string>, all: seq<Listing>)
    requires all != []
    ensures var n := |all| - 1;
            IsFirstPlace(enabled, all, n) <==>
            all[n].market in enabled && ListingKey(all[n]) !in Keys(FirstListings(enabled, all[..n]))
  {
    var n := |all| - 1;
    var init, key := all[..n], ListingKey(all[n]);
    EveryListingOnce(enabled, init);
    hide FirstListings, ListingKey;
    if key in Keys(FirstListings(enabled, init)) {
      var l :| l in FirstListings(enabled, init) && ListingKey(l) == key;
      var j :| 0 <= j < n && init[j] == l;
      assert all[j] == l;
    } else {
      forall j | 0 <= j < n && all[j].market in enabled ensures ListingKey(all[j]) != key {
        assert init[j] in init;
      }
    }
  }

  /** The requests are exactly the listings at such places, in the order of those places. */
  lemma {:induction false} RequestsInOrder(enabled: set<string>, all: seq<Listing>) returns (places: seq<nat>)
    ensures var items := FirstListings(enabled, all);
            && |places| == |items|
            && (forall i | 0 <= i < |items| :: IsFirstPlace(enabled, all, places[i]) && items[i] == all[places[i]])
            && (forall i, j | 0 <= i < j < |items| :: places[i] < places[j])
            && (forall k: nat :: IsFirstPlace(enabled, all, k) ==> k in places)
  {
    if all == [] {
      places := [];
    } else {
      var n := |all| - 1;
      places := RequestsInOrder(enabled, all[..n]);
      LastPlace(enabled, all);
      forall k: nat | k < n ensures IsFirstPlace(enabled, all, k) <==> IsFirstPlace(enabled, all[..n], k) {
        PlacesOfPrefix(enabled, all, n, k);
      }
      assert forall i | 0 <= i < |places| :: IsFirstPlace(enabled, all[..n], places[i]) && places[i] < n;
      assert forall k: nat :: IsFirstPlace(enabled, all, k) ==> k <= n;
      hide IsFirstPlace, Keys, ListingKey;
      if IsFirstPlace(enabled, all, n) {
        places := places + [n];
      }
    }
  }

  /** buildQuoteItemsFrom: watchlist first, then the positions of every account. */
  method BuildQuoteItemsFrom(enabled: set<string>, stocks: seq<Listing>, portfolio: Option<Summary>)
    returns (items: seq<Listing>)
    ensures items == FirstListings(enabled, stocks + AllListings(if portfolio.Some? then portfolio.value.accounts else []))
  {
    var accounts := if portfolio.Some? then portfolio.value.accounts else [];
    var seen: set<string>;
    items, seen := AddStocks(enabled, stocks);
    assert stocks + AllListings(accounts[..0]) == stocks;
    hide FirstListings, Keys, ListingsOf, AllListings;
    for i := 0 to |accounts|
      invariant items == FirstListings(enabled, stocks + AllListings(accounts[..i])) && seen == Keys(items)
    {
      ListingsOfOneMore(stocks, accounts, i);
      items, seen := AddPositions(enabled, items, seen, accounts[i].positions, stocks + AllListings(accounts[..i]));
    }
    assert accounts[..|accounts|] == accounts;
  }

  method AddStocks(enabled: set<string>, stocks: seq<Listing>) returns (items: seq<Listing>, seen: set<string>)
    ensures items == FirstListings(enabled, stocks) && seen == Keys(items)
  {
    items, seen := [], {};
    for i := 0 to |stocks|
      invariant items == FirstListings(enabled, stocks[..i]) && seen == Keys(items)
    {
      items, seen := Add(enabled, items, seen, stocks[i], stocks[..i]);
      assert stocks[..i] + [stocks[i]] == stocks[..i + 1];
    }
    assert stocks[..|stocks|] == stocks;
  }

  method AddPositions(enabled: set<string>, items: seq<Listing>, seen: set<string>, positions: seq<Position>,
                      ghost done: seq<Listing>)
    returns (items': seq<Listing>, seen': set<string>)
    requires items == FirstListings(enabled, done) && seen == Keys(items)
    ensures items' == FirstListings(enabled, done + ListingsOf(positions)) && seen' == Keys(items')
  {
    items', seen' := items, seen;
    assert done + ListingsOf(positions[..0]) == done;
    for j := 0 to |positions|
      invariant items' == FirstListings(enabled, done + ListingsOf(positions[..j])) && seen' == Keys(items')
    {
      var l := Listing(positions[j].symbol, positions[j].market);
      items', seen' := Add(enabled, items', seen', l, done + ListingsOf(positions[..j]));
      MapSnoc((p: Position) => Listing(p.symbol, p.market), positions, j);
      assert done + ListingsOf(positions[..j]) + [l] == done + ListingsOf(positions[..j + 1]);
    }
    assert positions[..|positions|] == positions;
  }

  method Add(enabled: set<string>, items: seq<Listing>, seen: set<string>, l: Listing, ghost done: seq<Listing>)
    returns (items': seq<Listing>, seen': set<string>)
    requires items == FirstListings(enabled, done) && seen == Keys(items)
    ensures items' == FirstListings(enabled, done + [l]) && seen' == Keys(items')
  {
    assert (done + [l])[..|done|] == done;
    if l.market !in enabled || ListingKey(l) in seen {
      return items, seen;
    }
    assert Keys(items + [l]) == Keys(items) + {ListingKey(l)};
    return items + [l], seen + {ListingKey(l)};
  }

  datatype Row = Row(listing: Listing, quote: Quote)

  /** Some row among the first n has this key. */
  predicate HasKey(rows: seq<Row>, n: nat, key: string)
    requires n <= |rows|
  {
    exists i :: 0 <= i < n && ListingKey(rows[i].listing) == key
  }

  lemma {:induction false} HasKeyOneMore(rows: seq<Row>, n: nat, key: string)
    requires n < |rows|
    ensures HasKey(rows, n + 1, key) <==> HasKey(rows, n, key) || ListingKey(rows[n].listing) == key
  {}

  lemma {:induction false} LastOneMore(rows: seq<Row>, n: nat, i: nat)
    requires i < n < |rows| && IsLastRow(rows, n + 1, i)
    ensures IsLastRow(rows, n, i) && ListingKey(rows[i].listing) != ListingKey(rows[n].listing)
  {}

  /** toQuoteMap: for every key the last row that has it. */
  method ToQuoteMap(rows: seq<Row>) returns (quotes: Quotes)
    ensures forall k :: k in quotes <==> HasKey(rows, |rows|, k)
    ensures forall i | 0 <= i < |rows| :: IsLastRow(rows, |rows|, i) ==>
              HasKey(rows, |rows|, ListingKey(rows[i].listing)) && quotes[ListingKey(rows[i].listing)] == rows[i].quote
  {
    quotes := map[];
    for n := 0 to |rows|
      invariant forall k :: k in quotes <==> HasKey(rows, n, k)
      invariant forall i | 0 <= i < n :: IsLastRow(rows, n, i) ==>
                  ListingKey(rows[i].listing) in quotes && quotes[ListingKey(rows[i].listing)] == rows[i].quote
    {
      quotes := quotes[ListingKey(rows[n].listing) := rows[n].quote];
      forall k ensures HasKey(rows, n + 1, k) <==> HasKey(rows, n, k) || ListingKey(rows[n].listing) == k {
        HasKeyOneMore(rows, n, k);
      }
      forall i | 0 <= i < n && IsLastRow(rows, n + 1, i)
        ensures IsLastRow(rows, n, i) && ListingKey(rows[i].listing) != ListingKey(rows[n].listing)
      {
        LastOneMore(rows, n, i);
      }
    }
  }

  /** No row between i and n has the key of row i. */
  predicate IsLastRow(rows: seq<Row>, n: nat, i: nat)
    requires n <= |rows|
  {
    i < n && forall j | i < j < n :: ListingKey(rows[j].listing) != ListingKey(rows[i].listing)
  }
}
