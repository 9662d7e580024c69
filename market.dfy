/** The stock market: a price that drifts once a second and income paid from it. */
module MarketComponent {
  import opened Component

  /** The 30 prices the chart starts with. */
  const InitialHistory: seq<real> := [
    9.0, 9.2, 8.9, 8.8, 9.1, 9.2, 9.4, 9.6, 9.8, 10.0, 9.0, 9.2, 8.9, 8.8, 9.1, 9.2, 9.4,
    9.6, 9.8, 10.0, 9.0, 9.2, 8.9, 8.8, 9.1, 9.2, 9.4, 9.6, 9.8, 10.0]

  /** The bounds of the factor `gen_range(0.96, 1.05)` draws for one trading step. */
  const MinFactor: real := 0.96
  const MaxFactor: real := 1.05

  /** Income is paid once `income_time` reaches this, which then drops by `IncomeCooldown`. */
  const IncomeThreshold: real := 24.0
  const IncomeCooldown: real := 50.0
  const IncomeRate: real := 0.1

  /** `push_back(x)` then `pop_front()`: the history keeps its length and ends with `x`. */
  function ShiftIn(history: seq<real>, x: real): (r: seq<real>)
    ensures |r| == |history|
    ensures history != [] ==> r[|r| - 1] == x && r[..|r| - 1] == history[1..]
    ensures history == [] ==> r == []
  {
    (history + [x])[1..]
  }

  /** One trading step moves the price by a factor in [0.96, 1.05). */
  lemma PriceWalkBounds(price: real, factor: real)
    requires price >= 0.0 && MinFactor <= factor < MaxFactor
    ensures MinFactor * price <= price * factor <= MaxFactor * price
    ensures price > 0.0 ==> price * factor < MaxFactor * price
  {
    assert price * factor - MinFactor * price == price * (factor - MinFactor);
    assert MaxFactor * price - price * factor == price * (MaxFactor - factor);
  }

  class Market {
    var money: real
    var price: real
    var tradingTime: real
    var incomeTime: real
    var history: seq<real>
    var show: bool

    /** `Market::new`. */
    constructor ()
      ensures money == 250.0 && price == 10.0
      ensures tradingTime == 0.0 && incomeTime == 0.0
      ensures history == InitialHistory && |history| == 30
      ensures !show
    {
      money, price := 250.0, 10.0;
      tradingTime, incomeTime := 0.0, 0.0;
      history := InitialHistory;
      show := false;
    }

    /**
     * `Market::update`, for an engine frame time `frameTime` and the factor `factor` that
     * `gen_range(0.96, 1.05)` returns should a trading step happen.
     */
    method Update(frameTime: real, factor: real)
      requires MinFactor <= factor < MaxFactor
      modifies this`money, this`price, this`tradingTime, this`incomeTime, this`history
      ensures var step := Limit(frameTime, FrameTimeCap);
        var trades := old(tradingTime) + step >= 1.0;
        var pays := old(incomeTime) + step >= IncomeThreshold;
        && tradingTime == old(tradingTime) + step - (if trades then 1.0 else 0.0)
        && incomeTime == old(incomeTime) + step - (if pays then IncomeCooldown else 0.0)
        && history == (if trades then ShiftIn(old(history), old(price)) else old(history))
        && price == (if trades then old(price) * factor else old(price))
        && money == (if pays then old(money) + price * IncomeRate else old(money))
      ensures |history| == |old(history)|
    {
      var step := Limit(frameTime, FrameTimeCap);
      tradingTime := tradingTime + step;
      incomeTime := incomeTime + step;
      if tradingTime >= 1.0 {
        history := history + [price];
        price := price * factor;
        history := history[1..];
        tradingTime := tradingTime - 1.0;
      }
      if incomeTime >= IncomeThreshold {
        money := money + price * IncomeRate;
        incomeTime := incomeTime - IncomeCooldown;
      }
    }
  }

  /** From the opening state, one trading step keeps 30 prices and lands the price in [9.6, 10.5). */
  method FirstTrade(factor: real) returns (m: Market)
    requires MinFactor <= factor < MaxFactor
    ensures |m.history| == 30
    ensures 9.6 <= m.price < 10.5
    ensures m.history == InitialHistory[1..] + [10.0]
    ensures m.money == 250.0
  {
    m := new Market();
    m.Update(1.0, factor);
    assert m.history == ShiftIn(InitialHistory, 10.0);
  }
}
