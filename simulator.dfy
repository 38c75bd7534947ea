/** The day-stepping back-tester: every bot starts with $1000 and no ETH; each
    simulated day every bot's account value is logged, the bot is asked for a
    decision in [-1, 1] given only the history up to "now", and the decision is
    applied at that day's open price. */
module Simulator {
  import opened PriceData

  /** `makeDecision(priceHistoryDocs, currentDateTime, currentDay)`. */
  type Bot = (seq<PricePoint>, int, int) -> real

  const StartingUsd: real := 1000.0

  /** The prices the simulator trades at are positive. */
  predicate PositiveOpens(docs: seq<PricePoint>)
  {
    forall k :: 0 <= k < |docs| ==> docs[k].open > 0.0
  }

  /** The account of one bot, as a value. */
  datatype Account = Account(usd: real, eth: real, valueOverTime: seq<real>)

  predicate NonNegative(a: Account)
  {
    a.usd >= 0.0 && a.eth >= 0.0
  }

  // ---------------------------------------------------------------------------
  // Look-ahead prevention and price lookup

  /** The documents whose time is at or before `t`, in their original order. */
  function BeforeOrAt(docs: seq<PricePoint>, t: int): (r: seq<PricePoint>)
    ensures |r| <= |docs|
    decreases |docs|
  {
    if docs == [] then []
    else BeforeOrAt(docs[..|docs| - 1], t) + (if docs[|docs| - 1].time <= t then [docs[|docs| - 1]] else [])
  }

  /** A document is kept exactly when its time is at or before `t`. */
  lemma {:induction false} BeforeOrAtMembers(docs: seq<PricePoint>, t: int)
    ensures forall p :: p in BeforeOrAt(docs, t) <==> p in docs && p.time <= t
    decreases |docs|
  {
    if docs != [] {
      var init := docs[..|docs| - 1];
      BeforeOrAtMembers(init, t);
      assert docs == init + [docs[|docs| - 1]];
    }
  }

  /** When the first `n` documents are at or before `t` and the rest after it,
      as on an ascending series, the filter keeps exactly the first `n`. */
  lemma {:induction false} BeforeOrAtIsPrefix(docs: seq<PricePoint>, t: int, n: nat)
    requires n <= |docs|
    requires forall j :: 0 <= j < n ==> docs[j].time <= t
    requires forall j :: n <= j < |docs| ==> docs[j].time > t
    ensures BeforeOrAt(docs, t) == docs[..n]
    decreases |docs|
  {
    if docs != [] {
      var last := docs[|docs| - 1];
      var init := docs[..|docs| - 1];
      assert BeforeOrAt(docs, t) == BeforeOrAt(init, t) + (if last.time <= t then [last] else []);
      if n == |docs| {
        assert forall j :: 0 <= j < n - 1 ==> init[j].time <= t;
        BeforeOrAtIsPrefix(init, t, n - 1);
        assert last.time <= t;
        assert init[..n - 1] + [last] == docs[..n];
      } else {
        assert forall j :: 0 <= j < n ==> init[j].time <= t;
        assert forall j :: n <= j < |init| ==> init[j].time > t;
        BeforeOrAtIsPrefix(init, t, n);
        assert last.time > t;
        assert init[..n] == docs[..n];
      }
    }
  }

  /** `getPHDBeforeOrAtDateTime`: the bots' view of the history at time `t`. */
  method GetPHDBeforeOrAtDateTime(docs: seq<PricePoint>, t: int) returns (limited: seq<PricePoint>)
    ensures limited == BeforeOrAt(docs, t)
  {
    limited := [];
    for i := 0 to |docs|
      invariant limited == BeforeOrAt(docs[..i], t)
    {
      assert docs[..i + 1][..i] == docs[..i];
      if docs[i].time <= t {
        limited := limited + [docs[i]];
      }
    }
    assert docs[..|docs|] == docs;
  }

  /** The open price of the first document with time exactly `t`. */
  function OpenAt(docs: seq<PricePoint>, t: int): (r: Option<real>)
    ensures r.None? <==> forall j :: 0 <= j < |docs| ==> docs[j].time != t
    ensures r.Some? ==> exists j :: 0 <= j < |docs| && docs[j].time == t && docs[j].open == r.value
  {
    match FirstIndexOf(docs, t)
    case None => None
    case Some(k) => Some(docs[k].open)
  }

  /** `getPriceAtDateTime`: a forward scan; null (None) when no document has time `t`. */
  method GetPriceAtDateTime(docs: seq<PricePoint>, t: int) returns (price: Option<real>)
    ensures price == OpenAt(docs, t)
  {
    for i := 0 to |docs|
      invariant forall j :: 0 <= j < i ==> docs[j].time != t
    {
      if docs[i].time == t {
        return Some(docs[i].open);
      }
    }
    return None;
  }

  // ---------------------------------------------------------------------------
  // One bot, one day

  /** The logged account value: `usd + eth*price`; with a null price JS
      multiplies by 0, so the value is the USD balance alone. */
  function ValueAt(a: Account, price: Option<real>): real
  {
    match price
    case None => a.usd
    case Some(p) => a.usd + a.eth * p
  }

  /** A decision outside [-1, 1] is invalid and replaced by 0. */
  function Coerce(decision: real): (d: real)
    ensures -1.0 <= d <= 1.0
    ensures -1.0 <= decision <= 1.0 ==> d == decision
  {
    if decision > 1.0 || decision < -1.0 then 0.0 else decision
  }

  /** The trade for a valid decision: sell that fraction of the ETH or spend
      that fraction of the USD at `price`; nothing without a price. */
  function Trade(a: Account, decision: real, price: Option<real>): (r: Account)
    requires -1.0 <= decision <= 1.0
    requires price.Some? ==> price.value > 0.0
    ensures r.valueOverTime == a.valueOverTime
  {
    match price
    case None => a
    case Some(p) =>
      if decision < 0.0 then
        var sold := a.eth * -decision;
        a.(usd := a.usd + sold * p, eth := a.eth - sold)
      else if decision > 0.0 then
        var spent := a.usd * decision;
        a.(usd := a.usd - spent, eth := a.eth + spent / p)
      else a
  }

  /** A bot's whole day: log the value, coerce the decision, trade. */
  function DayStep(a: Account, decision: real, price: Option<real>): Account
    requires price.Some? ==> price.value > 0.0
  {
    Trade(a.(valueOverTime := a.valueOverTime + [ValueAt(a, price)]), Coerce(decision), price)
  }

  /** An invalid decision leaves the balances unchanged that day. */
  lemma InvalidDecisionChangesNothing(a: Account, decision: real, price: Option<real>)
    requires price.Some? ==> price.value > 0.0
    requires decision > 1.0 || decision < -1.0
    ensures DayStep(a, decision, price).usd == a.usd
    ensures DayStep(a, decision, price).eth == a.eth
  {
  }

  /** A sell moves `eth*(-d)` out of ETH and `eth*(-d)*price` into USD; a buy
      moves `usd*d` out of USD and `usd*d/price` into ETH. */
  lemma TradeAmounts(a: Account, d: real, p: real)
    requires -1.0 <= d <= 1.0 && p > 0.0
    ensures d < 0.0 ==> Trade(a, d, Some(p)).eth == a.eth - a.eth * -d
    ensures d < 0.0 ==> Trade(a, d, Some(p)).usd == a.usd + a.eth * -d * p
    ensures d > 0.0 ==> Trade(a, d, Some(p)).usd == a.usd - a.usd * d
    ensures d > 0.0 ==> Trade(a, d, Some(p)).eth == a.eth + a.usd * d / p
    ensures d == 0.0 ==> Trade(a, d, Some(p)) == a
  {
  }

  /** Trading keeps both balances non-negative. */
  lemma TradeKeepsNonNegative(a: Account, d: real, price: Option<real>)
    requires -1.0 <= d <= 1.0
    requires price.Some? ==> price.value > 0.0
    requires NonNegative(a)
    ensures NonNegative(Trade(a, d, price))
  {
    if price.Some? && d < 0.0 {
      assert a.eth * -d <= a.eth * 1.0;
    } else if price.Some? && d > 0.0 {
      assert a.usd * d <= a.usd * 1.0;
      assert a.usd * d / price.value >= 0.0;
    }
  }

  /** A trade at `p` conserves `usd + eth*p`. */
  lemma TradeConservesValue(a: Account, d: real, p: real)
    requires -1.0 <= d <= 1.0 && p > 0.0
    ensures ValueAt(Trade(a, d, Some(p)), Some(p)) == ValueAt(a, Some(p))
  {
    if d > 0.0 {
      var spent := a.usd * d;
      assert spent / p * p == spent;
    }
  }

  // ---------------------------------------------------------------------------
  // All bots, all days

  function Initial(n: nat): (r: seq<Account>)
    ensures |r| == n && forall i :: 0 <= i < n ==> r[i] == Account(StartingUsd, 0.0, [])
  {
    seq(n, i => Account(StartingUsd, 0.0, []))
  }

  /** One simulated day at time `t` for every bot. */
  function Day(docs: seq<PricePoint>, bots: seq<Bot>, t: int, day: int, accounts: seq<Account>): (r: seq<Account>)
    requires PositiveOpens(docs) && |accounts| == |bots|
    ensures |r| == |accounts|
    ensures forall i :: 0 <= i < |r| ==>
      r[i] == DayStep(accounts[i], bots[i](BeforeOrAt(docs, t), t, day), OpenAt(docs, t))
  {
    seq(|accounts|, i requires 0 <= i < |accounts| =>
      DayStep(accounts[i], bots[i](BeforeOrAt(docs, t), t, day), OpenAt(docs, t)))
  }

  /** The days from `t` (numbered from `day`) while `t < end`, one day apart. */
  function RunDays(docs: seq<PricePoint>, bots: seq<Bot>, t: int, end: int, day: int, accounts: seq<Account>): (r: seq<Account>)
    requires PositiveOpens(docs) && |accounts| == |bots|
    ensures |r| == |accounts|
    decreases end - t
  {
    if t >= end then accounts
    else RunDays(docs, bots, AddDays(t, 1), end, day + 1, Day(docs, bots, t, day, accounts))
  }

  /** The number of simulated days from `t` to `end`: ceil((end - t) / 86400). */
  function DayCount(t: int, end: int): nat
  {
    if t >= end then 0 else (end - t + SecondsPerDay - 1) / SecondsPerDay
  }

  /** Every bot's value history grows by exactly one entry per simulated day, so
      all have the same length. */
  lemma {:induction false} RunDaysLengths(docs: seq<PricePoint>, bots: seq<Bot>, t: int, end: int, day: int, accounts: seq<Account>)
    requires PositiveOpens(docs) && |accounts| == |bots|
    ensures forall i :: 0 <= i < |accounts| ==>
      |RunDays(docs, bots, t, end, day, accounts)[i].valueOverTime| == |accounts[i].valueOverTime| + DayCount(t, end)
    decreases end - t
  {
    if t < end {
      var next := Day(docs, bots, t, day, accounts);
      RunDaysLengths(docs, bots, AddDays(t, 1), end, day + 1, next);
      assert DayCount(t, end) == DayCount(AddDays(t, 1), end) + 1;
    }
  }

  /** No balance ever becomes negative. */
  lemma {:induction false} RunDaysNonNegative(docs: seq<PricePoint>, bots: seq<Bot>, t: int, end: int, day: int, accounts: seq<Account>)
    requires PositiveOpens(docs) && |accounts| == |bots|
    requires forall i :: 0 <= i < |accounts| ==> NonNegative(accounts[i])
    ensures forall i :: 0 <= i < |accounts| ==> NonNegative(RunDays(docs, bots, t, end, day, accounts)[i])
    decreases end - t
  {
    if t < end {
      var next := Day(docs, bots, t, day, accounts);
      forall i | 0 <= i < |accounts| ensures NonNegative(next[i]) {
        var a := accounts[i];
        TradeKeepsNonNegative(a.(valueOverTime := a.valueOverTime + [ValueAt(a, OpenAt(docs, t))]),
                              Coerce(bots[i](BeforeOrAt(docs, t), t, day)), OpenAt(docs, t));
      }
      RunDaysNonNegative(docs, bots, AddDays(t, 1), end, day + 1, next);
    }
  }

  // ---------------------------------------------------------------------------
  // The mutable per-bot state and the simulation loop

  class BotState {
    const bot: Bot
    var usdAmount: real
    var ethAmount: real
    var valueOverTime: seq<real>

    constructor (bot: Bot)
      ensures this.bot == bot
      ensures State() == Account(StartingUsd, 0.0, [])
    {
      this.bot := bot;
      usdAmount := StartingUsd;
      ethAmount := 0.0;
      valueOverTime := [];
    }

    function State(): Account
      reads this
    {
      Account(usdAmount, ethAmount, valueOverTime)
    }

    /** Log the current value of the account. */
    method RecordValue(price: Option<real>)
      modifies this
      ensures State() == old(State()).(valueOverTime := old(State()).valueOverTime + [ValueAt(old(State()), price)])
    {
      var totalValue := if price.None? then usdAmount else usdAmount + ethAmount * price.value;
      assert totalValue == ValueAt(State(), price);
      valueOverTime := valueOverTime + [totalValue];
    }

    /** Apply a valid decision at the day's price, if there is one. */
    method ApplyDecision(decision: real, price: Option<real>)
      requires -1.0 <= decision <= 1.0
      requires price.Some? ==> price.value > 0.0
      modifies this
      ensures State() == Trade(old(State()), decision, price)
    {
      if price.Some? {
        var currentPrice := price.value;
        if decision < 0.0 {
          var ethAmountToSell := ethAmount * -decision;
          var usdAmountToReceive := ethAmountToSell * currentPrice;
          usdAmount := usdAmount + usdAmountToReceive;
          ethAmount := ethAmount - ethAmountToSell;
        } else if decision > 0.0 {
          var usdAmountToUse := usdAmount * decision;
          var ethAmountToBuy := usdAmountToUse / currentPrice;
          usdAmount := usdAmount - usdAmountToUse;
          ethAmount := ethAmount + ethAmountToBuy;
        }
      }
    }
  }

  function States(botStates: seq<BotState>): (r: seq<Account>)
    reads set s | s in botStates
    ensures |r| == |botStates| && forall i :: 0 <= i < |botStates| ==> r[i] == botStates[i].State()
  {
    seq(|botStates|, i reads set s | s in botStates requires 0 <= i < |botStates| => botStates[i].State())
  }

  /** The set-up loop: one fresh state per bot, each holding $1000 and no
      ETH, whatever starting amount the caller passed. */
  method NewBotStates(bots: seq<Bot>) returns (botStates: seq<BotState>)
    ensures |botStates| == |bots|
    ensures forall k :: 0 <= k < |bots| ==> fresh(botStates[k]) && botStates[k].bot == bots[k]
    ensures forall a, b :: 0 <= a < b < |bots| ==> botStates[a] != botStates[b]
    ensures States(botStates) == Initial(|bots|)
  {
    botStates := [];
    for i := 0 to |bots|
      invariant |botStates| == i
      invariant forall k :: 0 <= k < i ==> fresh(botStates[k]) && botStates[k].bot == bots[k]
      invariant forall k :: 0 <= k < i ==> botStates[k].State() == Account(StartingUsd, 0.0, [])
      invariant forall a, b :: 0 <= a < b < i ==> botStates[a] != botStates[b]
    {
      var state := new BotState(bots[i]);
      botStates := botStates + [state];
    }
  }

  /** The body of one simulated day: each bot in turn logs its value, is
      asked for a decision, has an invalid one replaced by 0, and trades. */
  method StepDay(botStates: seq<BotState>, available: seq<PricePoint>, t: int, day: int, price: Option<real>)
    requires forall a, b :: 0 <= a < b < |botStates| ==> botStates[a] != botStates[b]
    requires price.Some? ==> price.value > 0.0
    modifies set s | s in botStates
    ensures forall k :: 0 <= k < |botStates| ==>
      botStates[k].State() == DayStep(old(botStates[k].State()), botStates[k].bot(available, t, day), price)
  {
    for i := 0 to |botStates|
      invariant forall k :: 0 <= k < i ==>
        botStates[k].State() == DayStep(old(botStates[k].State()), botStates[k].bot(available, t, day), price)
      invariant forall k :: i <= k < |botStates| ==> botStates[k].State() == old(botStates[k].State())
    {
      var thisBotState := botStates[i];
      thisBotState.RecordValue(price);
      var decision := thisBotState.bot(available, t, day);
      if decision > 1.0 || decision < -1.0 {
        decision := 0.0;
      }
      thisBotState.ApplyDecision(decision, price);
    }
  }

  /** `simulate`: None when it throws, which happens in two places: the
      opening message dereferences a missing start price, and the closing
      report reads the first bot's history, which an empty bot list does not
      have. Otherwise one fresh state per bot, each starting at $1000 and 0 ETH
      whatever `startingUsd` says, stepped day by day while the current time is
      before `end`. */
  method Simulate(docs: seq<PricePoint>, bots: seq<Bot>, start: int, end: int, startingUsd: real)
    returns (result: Option<seq<BotState>>)
    requires PositiveOpens(docs)
    ensures result.None? <==> OpenAt(docs, start).None? || |bots| == 0
    ensures result.Some? ==> |result.value| == |bots|
    ensures result.Some? ==> forall i :: 0 <= i < |bots| ==> fresh(result.value[i]) && result.value[i].bot == bots[i]
    ensures result.Some? ==> States(result.value) == RunDays(docs, bots, start, end, 1, Initial(|bots|))
  {
    var startPrice := GetPriceAtDateTime(docs, start);
    if startPrice.None? {
      return None;
    }
    var botStates := NewBotStates(bots);

    var day := 1;
    var currentDateTime := start;
    while currentDateTime < end
      invariant |botStates| == |bots|
      invariant forall k :: 0 <= k < |bots| ==> fresh(botStates[k]) && botStates[k].bot == bots[k]
      invariant forall a, b :: 0 <= a < b < |bots| ==> botStates[a] != botStates[b]
      invariant RunDays(docs, bots, start, end, 1, Initial(|bots|))
             == RunDays(docs, bots, currentDateTime, end, day, States(botStates))
      decreases end - currentDateTime
    {
      var currentPrice := GetPriceAtDateTime(docs, currentDateTime);
      var available := GetPHDBeforeOrAtDateTime(docs, currentDateTime);
      ghost var before := States(botStates);
      StepDay(botStates, available, currentDateTime, day, currentPrice);
      assert States(botStates) == Day(docs, bots, currentDateTime, day, before);
      currentDateTime := AddDays(currentDateTime, 1);
      day := day + 1;
    }
    if |botStates| == 0 {
      // the report's `botStates[0].valueOverTime` is read on undefined
      return None;
    }
    return Some(botStates);
  }

  /** The buy-and-hold run on three daily prices 100, 110, 105 from t0 to
      t0 + 2 days: two simulated days, all $1000 turned into 10 ETH on day 1,
      values logged 1000 then 1100. */
  lemma BuyAndHoldExample(t0: int)
    ensures var docs := [PricePoint(t0, 0.0, 0.0, 100.0, 0.0, 0.0),
                         PricePoint(AddDays(t0, 1), 0.0, 0.0, 110.0, 0.0, 0.0),
                         PricePoint(AddDays(t0, 2), 0.0, 0.0, 105.0, 0.0, 0.0)];
            var buyAndHold: Bot := (h, t, d) => if d == 1 then 1.0 else 0.0;
            RunDays(docs, [buyAndHold], t0, AddDays(t0, 2), 1, Initial(1))
              == [Account(0.0, 10.0, [1000.0, 1100.0])]
  {
    var docs := [PricePoint(t0, 0.0, 0.0, 100.0, 0.0, 0.0),
                 PricePoint(AddDays(t0, 1), 0.0, 0.0, 110.0, 0.0, 0.0),
                 PricePoint(AddDays(t0, 2), 0.0, 0.0, 105.0, 0.0, 0.0)];
    var buyAndHold: Bot := (h, t, d) => if d == 1 then 1.0 else 0.0;
    assert FirstIndexOf(docs, t0) == Some(0);
    assert FirstIndexOf(docs[1..], AddDays(t0, 1)) == Some(0);
    assert FirstIndexOf(docs, AddDays(t0, 1)) == Some(1);
    assert OpenAt(docs, t0) == Some(100.0);
    assert OpenAt(docs, AddDays(t0, 1)) == Some(110.0);
    var start := Account(StartingUsd, 0.0, []);
    assert Initial(1) == [start];
    assert buyAndHold(BeforeOrAt(docs, t0), t0, 1) == 1.0;
    assert DayStep(start, 1.0, Some(100.0)) == Account(0.0, 10.0, [1000.0]);
    var day1 := Day(docs, [buyAndHold], t0, 1, Initial(1));
    assert day1 == [Account(0.0, 10.0, [1000.0])];
    assert buyAndHold(BeforeOrAt(docs, AddDays(t0, 1)), AddDays(t0, 1), 2) == 0.0;
    assert DayStep(day1[0], 0.0, Some(110.0)) == Account(0.0, 10.0, [1000.0, 1100.0]);
    var day2 := Day(docs, [buyAndHold], AddDays(t0, 1), 2, day1);
    assert day2 == [Account(0.0, 10.0, [1000.0, 1100.0])];
    assert RunDays(docs, [buyAndHold], AddDays(t0, 2), AddDays(t0, 2), 3, day2) == day2;
    assert RunDays(docs, [buyAndHold], AddDays(t0, 1), AddDays(t0, 2), 2, day1) == day2;
  }
}
