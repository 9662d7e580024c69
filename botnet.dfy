/** The botnet: a capacity shared out among four sliders, three of which queue effects. */
module BotnetComponent {
  import opened Component
  import opened Effects

  /** Per-second rates by which a slider's share turns into its outcome. */
  const MalwareRate: real := 0.001
  const MemesRate: real := 0.00008
  const CryptoRate: real := 0.1
  const BriberyRate: real := 0.0001

  /** The party the meme campaign always pulls popularity towards. */
  const MemeParty: nat := 3

  /**
   * The sliders' share denominator: their sum per unit of capacity, so `capacity` times it is
   * the slider sum; with non-negative sliders it is positive exactly when some slider is.
   */
  function TotalUsage(malware: real, memes: real, cryptoMining: real, bribery: real, capacity: real): (r: real)
    requires capacity > 0.0
    ensures r * capacity == malware + memes + cryptoMining + bribery
    ensures malware >= 0.0 && memes >= 0.0 && cryptoMining >= 0.0 && bribery >= 0.0 ==>
      (r > 0.0 <==> malware > 0.0 || memes > 0.0 || cryptoMining > 0.0 || bribery > 0.0)
  {
    (cryptoMining + malware + memes + bribery) / capacity
  }

  /** All four shares (slider / total usage) add up to the capacity. */
  lemma {:induction false} SharesSumToCapacity(malware: real, memes: real, cryptoMining: real, bribery: real, capacity: real)
    requires capacity > 0.0 && malware + memes + cryptoMining + bribery > 0.0
    ensures var total := TotalUsage(malware, memes, cryptoMining, bribery, capacity);
      total > 0.0 &&
      malware / total + memes / total + cryptoMining / total + bribery / total == capacity
  {
    var sum := malware + memes + cryptoMining + bribery;
    var total := TotalUsage(malware, memes, cryptoMining, bribery, capacity);
    assert total * capacity == sum;
    assert total > 0.0;
    calc {
      malware / total + memes / total + cryptoMining / total + bribery / total;
      sum / total;
      { assert sum == capacity * total; }
      capacity;
    }
  }

  /**
   * On a tick of positive length every effect the botnet queues carries a positive value:
   * an effect is only queued for a slider above zero.
   */
  lemma {:induction false} QueuedValuesPositive(malware: real, memes: real, cryptoMining: real, bribery: real,
                                                capacity: real, frameTime: real, briberyParty: nat)
    requires capacity > 0.0 && malware >= 0.0 && memes >= 0.0 && cryptoMining >= 0.0 && bribery >= 0.0
    requires frameTime > 0.0
    ensures forall e | e in QueuedEffects(malware, memes, cryptoMining, bribery, capacity, frameTime, briberyParty) ::
      !e.CreateEvent? && e.value > 0.0
  {
    if memes > 0.0 || cryptoMining > 0.0 || bribery > 0.0 {
      var total := TotalUsage(malware, memes, cryptoMining, bribery, capacity);
      PositiveAmount(memes, total, MemesRate, frameTime);
      PositiveAmount(cryptoMining, total, CryptoRate, frameTime);
      PositiveAmount(bribery, total, BriberyRate, frameTime);
      var meme := ParlamentEffect(Transfer, Constant, Amount(memes, total, MemesRate, frameTime), MemeParty);
      var mine := MarketEffect(Money, Constant, Amount(cryptoMining, total, CryptoRate, frameTime));
      var bribe := ParlamentEffect(Approval, Constant, Amount(bribery, total, BriberyRate, frameTime), briberyParty);
      Membership(memes > 0.0, cryptoMining > 0.0, bribery > 0.0, meme, mine, bribe);
    }
  }

  /**
   * The effects one tick queues, in the order memes, crypto mining, bribery, each present exactly
   * when its slider is positive; `briberyParty` is the draw `gen_range(0, 2)`.
   */
  function QueuedEffects(malware: real, memes: real, cryptoMining: real, bribery: real, capacity: real,
                         frameTime: real, briberyParty: nat): (r: seq<Effect>)
    requires capacity > 0.0 && malware >= 0.0 && memes >= 0.0 && cryptoMining >= 0.0 && bribery >= 0.0
    ensures |r| == (if memes > 0.0 then 1 else 0) + (if cryptoMining > 0.0 then 1 else 0) + (if bribery > 0.0 then 1 else 0)
    ensures memes == 0.0 && cryptoMining == 0.0 && bribery == 0.0 ==> r == []
  {
    var total := TotalUsage(malware, memes, cryptoMining, bribery, capacity);
    When(memes > 0.0, ParlamentEffect(Transfer, Constant, Amount(memes, total, MemesRate, frameTime), MemeParty))
    + When(cryptoMining > 0.0, MarketEffect(Money, Constant, Amount(cryptoMining, total, CryptoRate, frameTime)))
    + When(bribery > 0.0, ParlamentEffect(Approval, Constant, Amount(bribery, total, BriberyRate, frameTime), briberyParty))
  }

  /**
   * `slider / total_usage * rate * frame_time`, the value a positive slider's effect carries:
   * times the total it is the slider's rate over the frame.
   */
  function Amount(slider: real, total: real, rate: real, frameTime: real): (r: real)
    ensures total != 0.0 ==> r * total == slider * rate * frameTime
  {
    if total != 0.0 then slider / total * rate * frameTime else 0.0
  }

  /** The one-element queue `[e]` when `cond` holds, the empty one otherwise. */
  function When(cond: bool, e: Effect): (r: seq<Effect>)
    ensures cond ==> r == [e]
    ensures !cond ==> r == []
  {
    if cond then [e] else []
  }

  /**
   * What kinds of effect a tick queues: a Transfer towards the meme party exactly when memes
   * are on, a Money effect exactly when mining is on, an Approval effect for party 0 or 1 exactly
   * when bribery is on; every value is non-negative for a non-negative frame time.
   */
  lemma {:induction false} QueuedEffectKinds(malware: real, memes: real, cryptoMining: real, bribery: real, capacity: real,
                                             frameTime: real, briberyParty: nat)
    requires capacity > 0.0 && malware >= 0.0 && memes >= 0.0 && cryptoMining >= 0.0 && bribery >= 0.0
    requires frameTime >= 0.0 && briberyParty < 2
    ensures var r := QueuedEffects(malware, memes, cryptoMining, bribery, capacity, frameTime, briberyParty);
      && ((exists e | e in r :: e.ParlamentEffect? && e.parlamentResolution == Transfer) <==> memes > 0.0)
      && ((exists e | e in r :: e.MarketEffect?) <==> cryptoMining > 0.0)
      && ((exists e | e in r :: e.ParlamentEffect? && e.parlamentResolution == Approval) <==> bribery > 0.0)
      && (forall e | e in r :: !e.CreateEvent? && e.modifier == Constant && e.value >= 0.0)
      && (forall e | e in r :: e.ParlamentEffect? ==> e.parlamentResolution != Popularity)
      && (forall e | e in r :: e.ParlamentEffect? && e.parlamentResolution == Transfer ==> e.party == MemeParty)
      && (forall e | e in r :: e.ParlamentEffect? && e.parlamentResolution == Approval ==> e.party < 2 && e.party != MemeParty)
  {
    var r := QueuedEffects(malware, memes, cryptoMining, bribery, capacity, frameTime, briberyParty);
    if memes > 0.0 || cryptoMining > 0.0 || bribery > 0.0 {
      var total := TotalUsage(malware, memes, cryptoMining, bribery, capacity);
      NonNegativeValue(memes, total, MemesRate, frameTime);
      NonNegativeValue(cryptoMining, total, CryptoRate, frameTime);
      NonNegativeValue(bribery, total, BriberyRate, frameTime);
      var meme := ParlamentEffect(Transfer, Constant, Amount(memes, total, MemesRate, frameTime), MemeParty);
      var mine := MarketEffect(Money, Constant, Amount(cryptoMining, total, CryptoRate, frameTime));
      var bribe := ParlamentEffect(Approval, Constant, Amount(bribery, total, BriberyRate, frameTime), briberyParty);
      assert r == When(memes > 0.0, meme) + When(cryptoMining > 0.0, mine) + When(bribery > 0.0, bribe);
      assert meme.value >= 0.0 && mine.value >= 0.0 && bribe.value >= 0.0;
      Membership(memes > 0.0, cryptoMining > 0.0, bribery > 0.0, meme, mine, bribe);
    }
  }

  /** What is in three optional effects put one after the other. */
  lemma Membership(p: bool, q: bool, t: bool, x: Effect, y: Effect, z: Effect)
    ensures var r := When(p, x) + When(q, y) + When(t, z);
      && (forall e | e in r :: (e == x && p) || (e == y && q) || (e == z && t))
      && (p ==> x in r) && (q ==> y in r) && (t ==> z in r)
  {
    var a, b, c := When(p, x), When(q, y), When(t, z);
    assert forall e | e in a + b + c :: e in a || e in b || e in c;
  }

  /** A positive slider's amount over a positive total, rate and frame time is positive. */
  lemma PositiveAmount(slider: real, total: real, rate: real, frameTime: real)
    requires total > 0.0 && rate > 0.0 && frameTime > 0.0
    ensures slider > 0.0 ==> Amount(slider, total, rate, frameTime) > 0.0
  {
    if slider > 0.0 {
      assert slider / total > 0.0;
      assert slider / total * rate > 0.0;
    }
  }

  /** A non-negative slider's amount over a positive total is non-negative. */
  lemma NonNegativeValue(slider: real, total: real, rate: real, frameTime: real)
    requires slider >= 0.0 && total > 0.0 && rate >= 0.0 && frameTime >= 0.0
    ensures Amount(slider, total, rate, frameTime) >= 0.0
  {
    assert slider / total >= 0.0;
    assert slider / total * rate >= 0.0;
  }

  /** Malware's growth is never negative, and positive on a tick of positive length. */
  lemma GrowthSign(malware: real, total: real, step: real)
    requires malware > 0.0 && total > 0.0 && step >= 0.0
    ensures Amount(malware, total, MalwareRate, step) >= 0.0
    ensures step > 0.0 ==> Amount(malware, total, MalwareRate, step) > 0.0
  {
    assert malware / total > 0.0;
    assert malware / total * MalwareRate > 0.0;
  }

  class Botnet {
    var capacity: real
    var malware: real
    var memes: real
    var cryptoMining: real
    var bribery: real
    var show: bool
    var showMalware: bool
    var showMemes: bool
    var showBribery: bool

    /** The capacity stays positive and every slider stays within the widget's range [0, 1]. */
    ghost predicate Valid()
      reads this
    {
      capacity > 0.0 &&
      0.0 <= malware <= 1.0 && 0.0 <= memes <= 1.0 && 0.0 <= cryptoMining <= 1.0 && 0.0 <= bribery <= 1.0
    }

    /** `Botnet::new`, without the sound it loads. */
    constructor ()
      ensures Valid()
      ensures capacity == 1.0
      ensures malware == 0.0 && memes == 0.0 && cryptoMining == 0.0 && bribery == 0.0
      ensures !show && !showMalware && !showMemes && !showBribery
    {
      capacity := 1.0;
      malware, memes, cryptoMining, bribery := 0.0, 0.0, 0.0, 0.0;
      show, showMalware, showMemes, showBribery := false, false, false, false;
    }

    /**
     * What the slider widgets write between ticks, each value within [0, 1]. The crypto
     * mining slider is always drawn; the bribery, memes and malware sliders only while they
     * are shown, so a hidden slider keeps its value.
     */
    method SetSliders(cryptoMining': real, bribery': real, memes': real, malware': real)
      requires Valid()
      requires 0.0 <= cryptoMining' <= 1.0
      requires showBribery ==> 0.0 <= bribery' <= 1.0
      requires showMemes ==> 0.0 <= memes' <= 1.0
      requires showMalware ==> 0.0 <= malware' <= 1.0
      modifies this`cryptoMining, this`bribery, this`memes, this`malware
      ensures Valid()
      ensures cryptoMining == cryptoMining'
      ensures bribery == (if showBribery then bribery' else old(bribery))
      ensures memes == (if showMemes then memes' else old(memes))
      ensures malware == (if showMalware then malware' else old(malware))
    {
      cryptoMining := cryptoMining';
      if showBribery {
        bribery := bribery';
      }
      if showMemes {
        memes := memes';
      }
      if showMalware {
        malware := malware';
      }
    }

    /** The "Sende Spammail" button: one more bot. */
    method SendSpammail()
      requires Valid()
      modifies this`capacity
      ensures Valid()
      ensures capacity == old(capacity) + 1.0
    {
      capacity := capacity + 1.0;
    }

    /**
     * `Botnet::update`: the total usage is taken once, before the capacity grows; malware grows
     * the capacity and the other sliders append their effects to `effects`.
     */
    method Update(effects: seq<Effect>, frameTime: real, briberyParty: nat) returns (queued: seq<Effect>)
      requires Valid()
      requires frameTime >= 0.0 && briberyParty < 2
      modifies this`capacity
      ensures Valid()
      ensures var total := TotalUsage(malware, memes, cryptoMining, bribery, old(capacity));
        capacity == old(capacity) + (if malware > 0.0 then Amount(malware, total, MalwareRate, Limit(frameTime, FrameTimeCap)) else 0.0)
      ensures malware > 0.0 && frameTime > 0.0 ==> capacity > old(capacity)
      ensures capacity >= old(capacity)
      ensures malware == 0.0 ==> capacity == old(capacity)
      ensures queued == effects + QueuedEffects(malware, memes, cryptoMining, bribery, old(capacity),
                                                Limit(frameTime, FrameTimeCap), briberyParty)
    {
      var totalUsage := (cryptoMining + malware + memes + bribery) / capacity;
      var step := Limit(frameTime, FrameTimeCap);
      if malware > 0.0 {
        assert totalUsage == TotalUsage(malware, memes, cryptoMining, bribery, capacity);
        GrowthSign(malware, totalUsage, step);
        capacity := capacity + Amount(malware, totalUsage, MalwareRate, step);
      }
      queued := effects;
      if memes > 0.0 {
        queued := queued + [ParlamentEffect(Transfer, Constant, Amount(memes, totalUsage, MemesRate, step), MemeParty)];
      }
      if cryptoMining > 0.0 {
        queued := queued + [MarketEffect(Money, Constant, Amount(cryptoMining, totalUsage, CryptoRate, step))];
      }
      if bribery > 0.0 {
        queued := queued + [ParlamentEffect(Approval, Constant, Amount(bribery, totalUsage, BriberyRate, step), briberyParty)];
      }
    }
  }
}
