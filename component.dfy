/** The frame-time cap shared by the components (the `limit` helper they import). */
module Component {

  /** The cap every component applies to the engine's frame time. */
  const FrameTimeCap: real := 5.0

  /** `limit(dt, max)`: the frame time, cut off at `max`. */
  function Limit(frameTime: real, max: real): (r: real)
    ensures r <= max && r <= frameTime
    ensures r == frameTime || r == max
    ensures frameTime >= 0.0 && max >= 0.0 ==> r >= 0.0
  {
    if frameTime < max then frameTime else max
  }
}
