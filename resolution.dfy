/** `Effect::resolve`: applying one queued effect to the market, the parlament and the news. */
module EffectResolution {
  import opened Effects
  import opened NewsComponent
  import opened ParlamentComponent
  import opened MarketComponent
  import opened BotnetComponent

  /** Every draw of `gen_range(0, count)` lies in [0, count). */
  predicate DrawsBelow(draws: seq<nat>, count: nat)
  {
    forall k | 0 <= k < |draws| :: draws[k] < count
  }

  /** Some draw differs from `source`, so the rejection loop stops. */
  predicate HasOther(draws: seq<nat>, source: nat)
  {
    exists k | 0 <= k < |draws| :: draws[k] != source
  }

  lemma OtherInTail(draws: seq<nat>, source: nat)
    requires HasOther(draws, source) && draws[0] == source
    ensures HasOther(draws[1..], source)
  {
    var k :| 0 <= k < |draws| && draws[k] != source;
    assert draws[1..][k - 1] == draws[k];
  }

  /** The first draw that differs from `source`: the target the rejection loop settles on. */
  function FirstOther(draws: seq<nat>, source: nat): (r: nat)
    requires HasOther(draws, source)
    ensures r != source
    ensures exists j | 0 <= j < |draws| :: draws[j] == r && forall i | 0 <= i < j :: draws[i] == source
  {
    if draws[0] != source then draws[0]
    else
      OtherInTail(draws, source);
      var r := FirstOther(draws[1..], source);
      ghost var j :| 0 <= j < |draws[1..]| && draws[1..][j] == r && forall i | 0 <= i < j :: draws[1..][i] == source;
      assert draws[j + 1] == r && forall i | 0 <= i < j + 1 :: draws[i] == source;
      r
  }

  /** The rejection loop of `Transfer`: draw again while the draw is the source party. */
  method PickTarget(draws: seq<nat>, count: nat, source: nat) returns (target: nat)
    requires DrawsBelow(draws, count) && HasOther(draws, source)
    ensures target < count && target != source
    ensures target == FirstOther(draws, source)
  {
    var j := 0;
    target := draws[0];
    while target == source
      invariant 0 <= j < |draws| && target == draws[j]
      invariant HasOther(draws[j..], source)
      invariant FirstOther(draws[j..], source) == FirstOther(draws, source)
      decreases |draws| - j
    {
      OtherInTail(draws[j..], source);
      assert draws[j..][1..] == draws[j + 1..];
      j := j + 1;
      target := draws[j];
    }
    assert draws[j..][0] == target;
  }

  /** `Approval`: the party's approval after the modifier, clamped to [0, 1]. */
  function ResolveApproval(parties: seq<Party>, i: nat, modifier: ModifierType, value: real): (r: seq<Party>)
    requires i < |parties|
    ensures |r| == |parties|
    ensures 0.0 <= r[i].approval <= 1.0
    ensures 0.0 <= ResolveModifier(modifier, value, parties[i].approval) <= 1.0 ==>
      r[i].approval == ResolveModifier(modifier, value, parties[i].approval)
    ensures r[i].popularity == parties[i].popularity
    ensures forall k | 0 <= k < |parties| && k != i :: r[k] == parties[k]
  {
    var approval := Clamp(ResolveModifier(modifier, value, parties[i].approval), 0.0, 1.0);
    parties[i := parties[i].(approval := approval)]
  }

  /** `Popularity`: the party's popularity after the modifier, with no clamping. */
  function ResolvePopularity(parties: seq<Party>, i: nat, modifier: ModifierType, value: real): (r: seq<Party>)
    requires i < |parties|
    ensures |r| == |parties|
    ensures r[i].popularity == ResolveModifier(modifier, value, parties[i].popularity)
    ensures r[i].approval == parties[i].approval
    ensures forall k | 0 <= k < |parties| && k != i :: r[k] == parties[k]
  {
    parties[i := parties[i].(popularity := ResolveModifier(modifier, value, parties[i].popularity))]
  }

  /**
   * `Transfer`: the target loses `value` (through the modifier) clamped to [0, 1], and the
   * source gets what the target actually lost (through the same modifier).
   */
  function ResolveTransfer(parties: seq<Party>, source: nat, target: nat, modifier: ModifierType, value: real): (r: seq<Party>)
    requires source < |parties| && target < |parties| && source != target
    ensures |r| == |parties|
    ensures 0.0 <= r[target].popularity <= 1.0
    ensures r[source].popularity
         == ResolveModifier(modifier, parties[target].popularity - r[target].popularity, parties[source].popularity)
    ensures r[source].approval == parties[source].approval && r[target].approval == parties[target].approval
    ensures forall k | 0 <= k < |parties| && k != source && k != target :: r[k] == parties[k]
  {
    var oldValue := parties[target].popularity;
    var newValue := Clamp(ResolveModifier(modifier, -value, oldValue), 0.0, 1.0);
    var moved := parties[target := parties[target].(popularity := newValue)];
    moved[source := moved[source].(popularity := ResolveModifier(modifier, oldValue - newValue, moved[source].popularity))]
  }

  /**
   * A Constant transfer is zero-sum: the source gains exactly what the target lost, so the
   * popularity of the two, and of the whole parlament, is unchanged.
   */
  lemma TransferConserves(parties: seq<Party>, source: nat, target: nat, value: real)
    requires source < |parties| && target < |parties| && source != target
    ensures var r := ResolveTransfer(parties, source, target, Constant, value);
      && r[source].popularity - parties[source].popularity == parties[target].popularity - r[target].popularity
      && r[source].popularity + r[target].popularity == parties[source].popularity + parties[target].popularity
      && TotalPopularity(r) == TotalPopularity(parties)
  {
    var r := ResolveTransfer(parties, source, target, Constant, value);
    var moved := parties[target := r[target]];
    TotalPopularityUpdate(parties, target, r[target]);
    TotalPopularityUpdate(moved, source, r[source]);
    assert r == moved[source := r[source]];
  }

  /**
   * A Constant transfer of a non-negative amount from a target whose popularity is in [0, 1]
   * moves the requested amount when the target has it, and only what the target has otherwise.
   */
  lemma TransferMovesWhatTargetHas(parties: seq<Party>, source: nat, target: nat, value: real)
    requires source < |parties| && target < |parties| && source != target
    requires value >= 0.0 && 0.0 <= parties[target].popularity <= 1.0
    ensures var r := ResolveTransfer(parties, source, target, Constant, value);
      var have := parties[target].popularity;
      r[source].popularity - parties[source].popularity == (if value <= have then value else have)
  {
  }

  /** The modifier-by-modifier picture of a transfer, also for Setter and Multiplier. */
  lemma TransferByModifier(parties: seq<Party>, source: nat, target: nat, value: real)
    requires source < |parties| && target < |parties| && source != target
    ensures var have := parties[target].popularity;
      && ResolveTransfer(parties, source, target, Setter, value)[target].popularity == Clamp(-value, 0.0, 1.0)
      && ResolveTransfer(parties, source, target, Setter, value)[source].popularity == have - Clamp(-value, 0.0, 1.0)
      && ResolveTransfer(parties, source, target, Multiplier, value)[target].popularity == Clamp(have * -value, 0.0, 1.0)
  {
    assert ResolveModifier(Multiplier, -value, parties[target].popularity) == parties[target].popularity * -value;
  }

  /** The effect can be resolved: the party it names exists, and for a Transfer the draws stop. */
  predicate CanResolve(e: Effect, partyCount: nat, draws: seq<nat>)
  {
    match e
    case CreateEvent(_, _) => true
    case MarketEffect(_, _, _) => true
    case ParlamentEffect(resolution, _, _, party) =>
      if resolution == Transfer then partyCount > 1 ==> party < partyCount && DrawsBelow(draws, partyCount) && HasOther(draws, party)
      else party < partyCount
  }

  /** The parties after a parlament effect; `draws` feed the Transfer's choice of target. */
  function PartiesAfter(e: Effect, parties: seq<Party>, draws: seq<nat>): (r: seq<Party>)
    requires e.ParlamentEffect? && CanResolve(e, |parties|, draws)
    ensures |r| == |parties|
  {
    match e.parlamentResolution
    case Approval => ResolveApproval(parties, e.party, e.modifier, e.value)
    case Popularity => ResolvePopularity(parties, e.party, e.modifier, e.value)
    case Transfer =>
      if |parties| > 1 then ResolveTransfer(parties, e.party, FirstOther(draws, e.party), e.modifier, e.value)
      else parties
  }

  /** With fewer than two parties a transfer changes nothing, whatever party it names. */
  lemma LoneTransferIsNoop(parties: seq<Party>, modifier: ModifierType, value: real, party: nat, draws: seq<nat>)
    requires |parties| <= 1
    ensures PartiesAfter(ParlamentEffect(Transfer, modifier, value, party), parties, draws) == parties
  {
  }

  /** The target a transfer picks is never its source and always an existing party. */
  lemma TransferTargetIsOther(parties: seq<Party>, party: nat, draws: seq<nat>)
    requires |parties| > 1 && party < |parties|
    requires DrawsBelow(draws, |parties|) && HasOther(draws, party)
    ensures FirstOther(draws, party) != party && FirstOther(draws, party) < |parties|
  {
    var r := FirstOther(draws, party);
    var j :| 0 <= j < |draws| && draws[j] == r && forall i | 0 <= i < j :: draws[i] == party;
  }

  /**
   * `Effect::resolve`. `draws` are the values `gen_range(0, parties.len())` returns, in order,
   * should the effect be a Transfer.
   */
  method Resolve(e: Effect, market: Market, parlament: Parlament, news: News, draws: seq<nat>)
    requires CanResolve(e, |parlament.parties|, draws)
    modifies market`money, market`price, parlament`parties, news`current
    ensures news.current == (if e.CreateEvent? then [NewEvent(e.source, e.description)] + old(news.current) else old(news.current))
    ensures market.money == (if e.MarketEffect? && e.marketResolution == Money
                             then ResolveModifier(e.modifier, e.value, old(market.money)) else old(market.money))
    ensures market.price == (if e.MarketEffect? && e.marketResolution == Price
                             then ResolveModifier(e.modifier, e.value, old(market.price)) else old(market.price))
    ensures parlament.parties == (if e.ParlamentEffect? then PartiesAfter(e, old(parlament.parties), draws) else old(parlament.parties))
    ensures |parlament.parties| == |old(parlament.parties)|
  {
    match e
    case CreateEvent(source, description) =>
      news.current := [NewEvent(source, description)] + news.current;
    case MarketEffect(resolution, modifier, value) =>
      match resolution {
        case Money => market.money := ResolveModifier(modifier, value, market.money);
        case Price => market.price := ResolveModifier(modifier, value, market.price);
      }
    case ParlamentEffect(resolution, modifier, value, party) =>
      match resolution
      case Approval =>
        var p := parlament.parties[party];
        var approval := ResolveModifier(modifier, value, p.approval);
        approval := Clamp(approval, 0.0, 1.0);
        parlament.parties := parlament.parties[party := p.(approval := approval)];
      case Popularity =>
        var p := parlament.parties[party];
        parlament.parties := parlament.parties[party := p.(popularity := ResolveModifier(modifier, value, p.popularity))];
      case Transfer =>
        if |parlament.parties| > 1 {
          var targetNum := PickTarget(draws, |parlament.parties|, party);
          var target := parlament.parties[targetNum];
          var oldValue := target.popularity;
          var newValue := ResolveModifier(modifier, -value, oldValue);
          newValue := Clamp(newValue, 0.0, 1.0);
          parlament.parties := parlament.parties[targetNum := target.(popularity := newValue)];
          var diff := oldValue - newValue;
          var source := parlament.parties[party];
          parlament.parties := parlament.parties[party := source.(popularity := ResolveModifier(modifier, diff, source.popularity))];
        }
  }

  /** Every effect of a frame can be resolved, each with its own draws. */
  predicate AllResolvable(effects: seq<Effect>, partyCount: nat, draws: seq<seq<nat>>)
  {
    |draws| == |effects| && forall i | 0 <= i < |effects| :: CanResolve(effects[i], partyCount, draws[i])
  }

  lemma AllResolvableTail(effects: seq<Effect>, partyCount: nat, draws: seq<seq<nat>>)
    requires effects != [] && AllResolvable(effects, partyCount, draws)
    ensures CanResolve(effects[0], partyCount, draws[0]) && AllResolvable(effects[1..], partyCount, draws[1..])
  {
    assert forall i | 0 <= i < |effects| - 1 :: effects[1..][i] == effects[i + 1] && draws[1..][i] == draws[i + 1];
  }

  /** The `current` news after resolving `effects` in order: each created event goes to the front. */
  function CreatedAfter(effects: seq<Effect>, current: seq<Event>): (r: seq<Event>)
    ensures |current| <= |r| && r[|r| - |current|..] == current
  {
    if effects == [] then current
    else
      var e := effects[0];
      var next := if e.CreateEvent? then [NewEvent(e.source, e.description)] + current else current;
      var r := CreatedAfter(effects[1..], next);
      assert r[|r| - |next|..][|next| - |current|..] == r[|r| - |current|..];
      r
  }

  /**
   * The market value (money or price) after resolving `effects` in order; a queue with no
   * effect on that value leaves it as it was.
   */
  function MarketAfter(effects: seq<Effect>, resolution: MarketResolution, x: real): (r: real)
    ensures (forall e | e in effects :: !(e.MarketEffect? && e.marketResolution == resolution)) ==> r == x
  {
    if effects == [] then x
    else
      var e := effects[0];
      MarketAfter(effects[1..], resolution,
                  if e.MarketEffect? && e.marketResolution == resolution then ResolveModifier(e.modifier, e.value, x) else x)
  }

  /** The parties after resolving `effects` in order, effect `i` drawing from `draws[i]`. */
  function PartiesAfterAll(effects: seq<Effect>, parties: seq<Party>, draws: seq<seq<nat>>): (r: seq<Party>)
    requires AllResolvable(effects, |parties|, draws)
    ensures |r| == |parties|
    decreases |effects|
  {
    if effects == [] then parties
    else
      AllResolvableTail(effects, |parties|, draws);
      var e := effects[0];
      PartiesAfterAll(effects[1..], if e.ParlamentEffect? then PartiesAfter(e, parties, draws[0]) else parties, draws[1..])
  }

  /** The effect leaves the total popularity alone: it is not `Popularity` nor a non-Constant `Transfer`. */
  predicate KeepsPopularity(e: Effect)
  {
    e.ParlamentEffect? ==> e.parlamentResolution == Approval || (e.parlamentResolution == Transfer && e.modifier == Constant)
  }

  /** One effect that keeps popularity leaves the total unchanged. */
  lemma StepKeepsTotal(e: Effect, parties: seq<Party>, draws: seq<nat>)
    requires e.ParlamentEffect? && CanResolve(e, |parties|, draws) && KeepsPopularity(e)
    ensures TotalPopularity(PartiesAfter(e, parties, draws)) == TotalPopularity(parties)
  {
    if e.parlamentResolution == Approval {
      var r := ResolveApproval(parties, e.party, e.modifier, e.value);
      TotalPopularityUpdate(parties, e.party, r[e.party]);
      assert r == parties[e.party := r[e.party]];
    } else if |parties| > 1 {
      TransferTargetIsOther(parties, e.party, draws);
      TransferConserves(parties, e.party, FirstOther(draws, e.party), e.value);
    }
  }

  /** A frame of effects none of which changes popularity outright keeps the parlament's total. */
  lemma {:induction false} AllKeepTotal(effects: seq<Effect>, parties: seq<Party>, draws: seq<seq<nat>>)
    requires AllResolvable(effects, |parties|, draws)
    requires forall i | 0 <= i < |effects| :: KeepsPopularity(effects[i])
    ensures TotalPopularity(PartiesAfterAll(effects, parties, draws)) == TotalPopularity(parties)
    decreases |effects|
  {
    if effects != [] {
      AllResolvableTail(effects, |parties|, draws);
      var e := effects[0];
      var next := if e.ParlamentEffect? then PartiesAfter(e, parties, draws[0]) else parties;
      if e.ParlamentEffect? {
        StepKeepsTotal(e, parties, draws[0]);
      }
      assert forall i | 0 <= i < |effects| - 1 :: effects[1..][i] == effects[i + 1];
      AllKeepTotal(effects[1..], next, draws[1..]);
    }
  }

  /**
   * The botnet's effects of one frame never change the parlament's total popularity: memes
   * move popularity between parties, and bribery only buys approval.
   */
  lemma BotnetKeepsTotalPopularity(malware: real, memes: real, cryptoMining: real, bribery: real, capacity: real,
                                   frameTime: real, briberyParty: nat, parties: seq<Party>, draws: seq<seq<nat>>)
    requires capacity > 0.0 && malware >= 0.0 && memes >= 0.0 && cryptoMining >= 0.0 && bribery >= 0.0
    requires frameTime >= 0.0 && briberyParty < 2
    requires AllResolvable(QueuedEffects(malware, memes, cryptoMining, bribery, capacity, frameTime, briberyParty), |parties|, draws)
    ensures var effects := QueuedEffects(malware, memes, cryptoMining, bribery, capacity, frameTime, briberyParty);
      TotalPopularity(PartiesAfterAll(effects, parties, draws)) == TotalPopularity(parties)
  {
    var effects := QueuedEffects(malware, memes, cryptoMining, bribery, capacity, frameTime, briberyParty);
    QueuedEffectKinds(malware, memes, cryptoMining, bribery, capacity, frameTime, briberyParty);
    assert forall i | 0 <= i < |effects| :: effects[i] in effects;
    AllKeepTotal(effects, parties, draws);
  }

  /**
   * The frame's resolution pass: every queued effect is resolved in order, effect `i` with
   * the draws `draws[i]`, and then the queue is emptied.
   */
  method ResolveAll(effects: seq<Effect>, market: Market, parlament: Parlament, news: News, draws: seq<seq<nat>>)
    returns (cleared: seq<Effect>)
    requires AllResolvable(effects, |parlament.parties|, draws)
    modifies market`money, market`price, parlament`parties, news`current
    ensures cleared == []
    ensures news.current == CreatedAfter(effects, old(news.current))
    ensures market.money == MarketAfter(effects, Money, old(market.money))
    ensures market.price == MarketAfter(effects, Price, old(market.price))
    ensures parlament.parties == PartiesAfterAll(effects, old(parlament.parties), draws)
  {
    var i := 0;
    while i < |effects|
      invariant 0 <= i <= |effects| == |draws|
      invariant AllResolvable(effects[i..], |parlament.parties|, draws[i..])
      invariant CreatedAfter(effects[i..], news.current) == CreatedAfter(effects, old(news.current))
      invariant MarketAfter(effects[i..], Money, market.money) == MarketAfter(effects, Money, old(market.money))
      invariant MarketAfter(effects[i..], Price, market.price) == MarketAfter(effects, Price, old(market.price))
      invariant PartiesAfterAll(effects[i..], parlament.parties, draws[i..]) == PartiesAfterAll(effects, old(parlament.parties), draws)
    {
      ResolveNext(effects, i, market, parlament, news, draws);
      i := i + 1;
    }
    cleared := [];
  }

  /** One iteration of the resolution pass: effect `i` is resolved, and the folds advance by one. */
  method ResolveNext(effects: seq<Effect>, i: nat, market: Market, parlament: Parlament, news: News, draws: seq<seq<nat>>)
    requires i < |effects| == |draws| && AllResolvable(effects[i..], |parlament.parties|, draws[i..])
    modifies market`money, market`price, parlament`parties, news`current
    ensures AllResolvable(effects[i + 1..], |parlament.parties|, draws[i + 1..])
    ensures CreatedAfter(effects[i + 1..], news.current) == CreatedAfter(effects[i..], old(news.current))
    ensures MarketAfter(effects[i + 1..], Money, market.money) == MarketAfter(effects[i..], Money, old(market.money))
    ensures MarketAfter(effects[i + 1..], Price, market.price) == MarketAfter(effects[i..], Price, old(market.price))
    ensures PartiesAfterAll(effects[i + 1..], parlament.parties, draws[i + 1..])
         == PartiesAfterAll(effects[i..], old(parlament.parties), draws[i..])
  {
    AllResolvableTail(effects[i..], |parlament.parties|, draws[i..]);
    assert effects[i..][0] == effects[i] && effects[i..][1..] == effects[i + 1..];
    assert draws[i..][0] == draws[i] && draws[i..][1..] == draws[i + 1..];
    Resolve(effects[i], market, parlament, news, draws[i]);
  }
}
