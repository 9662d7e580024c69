/** The effect data of the game: what an effect targets and how it combines with the target. */
module Effects {

  /** Which field of the market a market effect changes. */
  datatype MarketResolution = Money | Price

  /** Which party value a parlament effect changes. */
  datatype ParlamentResolution = Approval | Popularity | Transfer

  /** How an effect's value combines with its destination. */
  datatype ModifierType =
    | Setter      // the destination becomes the value
    | Constant    // the value is added to the destination
    | Multiplier  // the destination is scaled by the value

  /** A deferred mutation, queued by one component and resolved against all of them. */
  datatype Effect =
    | CreateEvent(source: string, description: string)
    | MarketEffect(marketResolution: MarketResolution, modifier: ModifierType, value: real)
    | ParlamentEffect(parlamentResolution: ParlamentResolution, modifier: ModifierType, value: real, party: nat)

  /**
   * `resolve_modifier`: the new value of `destination` once `value` is applied to it. The
   * applied value can be read back from the old and new destination: it is the new value
   * (Setter), the difference (Constant) or the ratio (Multiplier on a non-zero destination).
   */
  function ResolveModifier(modifier: ModifierType, value: real, destination: real): (r: real)
    ensures modifier == Setter ==> r == value
    ensures modifier == Constant ==> r - destination == value
    ensures modifier == Multiplier && destination != 0.0 ==> r / destination == value
    ensures modifier == Multiplier && destination == 0.0 ==> r == 0.0
  {
    match modifier
    case Setter => value
    case Constant => destination + value
    case Multiplier => destination * value
  }

  /** A Setter forgets the destination, a Constant shifts it, a Multiplier scales it. */
  lemma ModifierLaws(value: real, x: real, y: real)
    ensures ResolveModifier(Setter, value, x) == ResolveModifier(Setter, value, y) == value
    ensures ResolveModifier(Constant, value, x) - x == value
    ensures ResolveModifier(Constant, value, x) - ResolveModifier(Constant, value, y) == x - y
    ensures ResolveModifier(Multiplier, value, x) - ResolveModifier(Multiplier, value, y) == value * (x - y)
    ensures ResolveModifier(Constant, 0.0, x) == ResolveModifier(Multiplier, 1.0, x) == x
  {
  }

  /** A Constant effect followed by the opposite Constant effect restores the destination. */
  lemma ConstantUndone(value: real, x: real)
    ensures ResolveModifier(Constant, -value, ResolveModifier(Constant, value, x)) == x
  {
  }

  /** `clamp(x, lo, hi)`: below `lo` gives `lo`, above `hi` gives `hi`, otherwise `x`. */
  function Clamp(x: real, lo: real, hi: real): (r: real)
    requires lo <= hi
    ensures lo <= r <= hi
    ensures lo <= x <= hi ==> r == x
    ensures x < lo ==> r == lo
    ensures x > hi ==> r == hi
  {
    if x < lo then lo else if x > hi then hi else x
  }
}
