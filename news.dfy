/** The news feed: a pool of events that fire at random and a list of the events shown. */
module NewsComponent {
  import opened Effects

  /** A news item; `chance` is its per-second probability of firing. */
  datatype Event = Event(source: string, description: string, effects: seq<Effect>, chance: real)

  /** `Event::new`: an event with no effects that never fires on its own. */
  function NewEvent(source: string, description: string): (r: Event)
    ensures r.source == source && r.description == description
    ensures r.effects == [] && r.chance == 0.0
  {
    Event(source, description, [], 0.0)
  }

  /**
   * An event fires when its roll, drawn from [0, 1), falls below its chance: an event of
   * chance at least 1 always fires and one of chance at most 0 (as `Event::new` makes) never.
   */
  predicate Fires(event: Event, roll: real)
    ensures roll < 1.0 <= event.chance ==> Fires(event, roll)
    ensures event.chance <= 0.0 <= roll ==> !Fires(event, roll)
  {
    roll < event.chance
  }

  /** The events of `available` that fire under `rolls`, in their order in `available`. */
  function Fired(available: seq<Event>, rolls: seq<real>): (r: seq<Event>)
    requires |rolls| == |available|
    ensures |r| <= |available|
  {
    if available == [] then []
    else (if Fires(available[0], rolls[0]) then [available[0]] else []) + Fired(available[1..], rolls[1..])
  }

  /** The events of `available` that do not fire under `rolls`, in their order in `available`. */
  function Kept(available: seq<Event>, rolls: seq<real>): (r: seq<Event>)
    requires |rolls| == |available|
    ensures |r| <= |available|
  {
    if available == [] then []
    else (if Fires(available[0], rolls[0]) then [] else [available[0]]) + Kept(available[1..], rolls[1..])
  }

  /**
   * The effects of the firing events, event by event, each event's own effects in order: a
   * round without a firing event queues nothing, and every queued effect is an effect of an
   * event that fired.
   */
  function FiredEffects(available: seq<Event>, rolls: seq<real>): (r: seq<Effect>)
    requires |rolls| == |available|
    ensures (forall k | 0 <= k < |available| :: !Fires(available[k], rolls[k])) ==> r == []
    ensures forall e | e in r :: exists k | 0 <= k < |available| :: Fires(available[k], rolls[k]) && e in available[k].effects
  {
    if available == [] then []
    else (if Fires(available[0], rolls[0]) then available[0].effects else []) + FiredEffects(available[1..], rolls[1..])
  }

  /**
   * The positions (counted from `offset`) of the firing events: at most one per event, the
   * first no lower than `offset` and the last inside the pool (`FiredIndicesValid` says the
   * rest).
   */
  function FiredIndices(available: seq<Event>, rolls: seq<real>, offset: nat): (r: seq<nat>)
    requires |rolls| == |available|
    ensures |r| <= |available|
    ensures r != [] ==> offset <= r[0] && r[|r| - 1] < offset + |available|
  {
    if available == [] then []
    else (if Fires(available[0], rolls[0]) then [offset] else []) + FiredIndices(available[1..], rolls[1..], offset + 1)
  }

  function Reverse<T>(s: seq<T>): (r: seq<T>)
    ensures |r| == |s|
  {
    if s == [] then [] else Reverse(s[1..]) + [s[0]]
  }

  lemma {:induction false} ReverseAt<T>(s: seq<T>, k: nat)
    requires k < |s|
    ensures Reverse(s)[k] == s[|s| - 1 - k]
  {
    if k < |s| - 1 {
      ReverseAt(s[1..], k);
    }
  }

  /**
   * `VecDeque::remove`: drops position `k` when there is one, shifting the later elements
   * down by one, and changes nothing otherwise.
   */
  function RemoveAt<T>(s: seq<T>, k: int): (r: seq<T>)
    ensures 0 <= k < |s| ==> |r| == |s| - 1 && forall i | 0 <= i < |r| :: r[i] == if i < k then s[i] else s[i + 1]
    ensures !(0 <= k < |s|) ==> r == s
  {
    if 0 <= k < |s| then s[..k] + s[k + 1..] else s
  }

  /**
   * The compaction loop: removes `indices[j] - (shift + j)` for each j in turn. Each
   * removal drops at most one element, so the result loses at most `|indices|` of them.
   */
  function RemoveShifted<T>(s: seq<T>, indices: seq<nat>, shift: nat): (r: seq<T>)
    ensures |s| - |indices| <= |r| <= |s|
  {
    if indices == [] then s
    else RemoveShifted(RemoveAt(s, indices[0] - shift), indices[1..], shift + 1)
  }

  /** The compaction of `done + available` from `shift` removals on keeps `done` and the unfired events. */
  ghost predicate CompactsTo(done: seq<Event>, available: seq<Event>, rolls: seq<real>, shift: nat)
    requires |rolls| == |available|
  {
    RemoveShifted(done + available, FiredIndices(available, rolls, |done| + shift), shift) == done + Kept(available, rolls)
  }

  /** One removal of the compaction loop. */
  lemma RemoveShiftedStep<T>(s: seq<T>, indices: seq<nat>, i: nat, shift: nat)
    requires i < |indices|
    ensures RemoveShifted(s, indices[i..], shift) == RemoveShifted(RemoveAt(s, indices[i] - shift), indices[i + 1..], shift + 1)
  {
    var t := indices[i..];
    assert t[0] == indices[i] && t[1..] == indices[i + 1..];
    assert RemoveShifted(s, t, shift) == RemoveShifted(RemoveAt(s, t[0] - shift), t[1..], shift + 1);
  }

  /**
   * One step of the compaction with a firing event at the front: the next removal deletes
   * it and the shift grows by one, so the claim for the rest gives the claim for all.
   */
  lemma FiringStep(done: seq<Event>, available: seq<Event>, rolls: seq<real>, shift: nat)
    requires |rolls| == |available| && available != [] && Fires(available[0], rolls[0])
    requires CompactsTo(done, available[1..], rolls[1..], shift + 1)
    ensures CompactsTo(done, available, rolls, shift)
  {
    var rest := available[1..];
    var later, kept := FiredIndices(rest, rolls[1..], |done| + shift + 1), Kept(rest, rolls[1..]);
    assert RemoveShifted(done + rest, later, shift + 1) == done + kept;
    var indices := [|done| + shift] + later;
    assert FiredIndices(available, rolls, |done| + shift) == indices;
    assert indices[1..] == later;
    RemoveFront(done, available, indices, shift);
    assert Kept(available, rolls) == [] + kept == kept;
  }

  /** Removing position `|done|` of `done + available` drops the front of `available`. */
  lemma RemoveFront<T>(done: seq<T>, available: seq<T>, indices: seq<nat>, shift: nat)
    requires available != [] && indices != [] && indices[0] == |done| + shift
    ensures RemoveShifted(done + available, indices, shift) == RemoveShifted(done + available[1..], indices[1..], shift + 1)
  {
    var s := done + available;
    assert s[..|done|] == done && s[|done| + 1..] == available[1..];
    assert RemoveAt(s, indices[0] - shift) == done + available[1..];
  }

  /** Moving the front of `s` onto the end of `done` keeps the concatenation. */
  lemma MoveFront<T>(done: seq<T>, s: seq<T>)
    requires s != []
    ensures done + s == (done + [s[0]]) + s[1..]
  {
    assert s == [s[0]] + s[1..];
  }

  /**
   * One step of the compaction with a quiet event at the front: it joins the compacted
   * prefix and nothing is removed, so the claim for the rest gives the claim for all.
   */
  lemma QuietStep(done: seq<Event>, available: seq<Event>, rolls: seq<real>, shift: nat)
    requires |rolls| == |available| && available != [] && !Fires(available[0], rolls[0])
    requires CompactsTo(done + [available[0]], available[1..], rolls[1..], shift)
    ensures CompactsTo(done, available, rolls, shift)
  {
    var done', rest := done + [available[0]], available[1..];
    var kept, indices := Kept(rest, rolls[1..]), FiredIndices(rest, rolls[1..], |done'| + shift);
    assert RemoveShifted(done' + rest, indices, shift) == done' + kept;
    assert FiredIndices(available, rolls, |done| + shift) == [] + indices == indices;
    MoveFront(done, available);
    assert Kept(available, rolls) == [available[0]] + kept;
    MoveFront(done, [available[0]] + kept);
    assert RemoveShifted(done + available, FiredIndices(available, rolls, |done| + shift), shift)
        == RemoveShifted(done' + rest, indices, shift);
  }

  /**
   * Removing the firing positions in ascending order, each shifted down by the number of
   * removals already made, leaves exactly the events that did not fire, in order; `done`
   * is the already compacted prefix and `shift` the number of removals made so far.
   */
  lemma CompactionKeepsUnfired(done: seq<Event>, available: seq<Event>, rolls: seq<real>, shift: nat)
    requires |rolls| == |available|
    ensures RemoveShifted(done + available, FiredIndices(available, rolls, |done| + shift), shift)
         == done + Kept(available, rolls)
  {
    AllCompact(done, available, rolls, shift);
  }

  lemma {:induction false} AllCompact(done: seq<Event>, available: seq<Event>, rolls: seq<real>, shift: nat)
    requires |rolls| == |available|
    ensures CompactsTo(done, available, rolls, shift)
    decreases |available|
  {
    if available == [] {
      assert done + available == done;
    } else if Fires(available[0], rolls[0]) {
      AllCompact(done, available[1..], rolls[1..], shift + 1);
      FiringStep(done, available, rolls, shift);
    } else {
      AllCompact(done + [available[0]], available[1..], rolls[1..], shift);
      QuietStep(done, available, rolls, shift);
    }
  }

  /** Every event either fires or is kept: the pool is split, nothing is lost or duplicated. */
  lemma {:induction false} FiredKeptPartition(available: seq<Event>, rolls: seq<real>)
    requires |rolls| == |available|
    ensures |Fired(available, rolls)| + |Kept(available, rolls)| == |available|
    ensures multiset(Fired(available, rolls)) + multiset(Kept(available, rolls)) == multiset(available)
  {
    if available != [] {
      FiredKeptPartition(available[1..], rolls[1..]);
      var x, fired, kept := available[0], Fired(available[1..], rolls[1..]), Kept(available[1..], rolls[1..]);
      SplitFront(available);
      if Fires(x, rolls[0]) {
        assert Fired(available, rolls) == [x] + fired && Kept(available, rolls) == [] + kept;
      } else {
        assert Fired(available, rolls) == [] + fired && Kept(available, rolls) == [x] + kept;
      }
      PartitionStep(x, available[1..], fired, kept);
    }
  }

  lemma SplitFront<T>(s: seq<T>)
    requires s != []
    ensures s == [s[0]] + s[1..]
  {
  }

  /** Adding one element to either side of a split adds it to the whole. */
  lemma PartitionStep<T>(x: T, rest: seq<T>, left: seq<T>, right: seq<T>)
    requires multiset(left) + multiset(right) == multiset(rest)
    ensures multiset([x] + left) + multiset([] + right) == multiset([x] + rest)
    ensures multiset([] + left) + multiset([x] + right) == multiset([x] + rest)
  {
    assert [] + left == left && [] + right == right;
  }

  /**
   * One index is recorded per fired event; when no event fires everything is kept, and when
   * every event fires everything is fired and nothing is kept.
   */
  lemma {:induction false} KeptNeverFired(available: seq<Event>, rolls: seq<real>)
    requires |rolls| == |available|
    ensures |Fired(available, rolls)| == |FiredIndices(available, rolls, 0)|
    ensures (forall k | 0 <= k < |available| :: !Fires(available[k], rolls[k])) ==> Kept(available, rolls) == available
    ensures (forall k | 0 <= k < |available| :: Fires(available[k], rolls[k])) ==>
      Fired(available, rolls) == available && Kept(available, rolls) == []
  {
    FiredIndicesCount(available, rolls, 0);
    if available != [] {
      var rest := available[1..];
      KeptNeverFired(rest, rolls[1..]);
      SplitFront(available);
      if forall k | 0 <= k < |available| :: !Fires(available[k], rolls[k]) {
        assert forall k | 0 <= k < |rest| :: !Fires(rest[k], rolls[1..][k]) by {
          forall k | 0 <= k < |rest| ensures !Fires(rest[k], rolls[1..][k]) {
            assert rest[k] == available[k + 1] && rolls[1..][k] == rolls[k + 1];
          }
        }
        assert Kept(available, rolls) == [available[0]] + rest;
      }
      if forall k | 0 <= k < |available| :: Fires(available[k], rolls[k]) {
        assert forall k | 0 <= k < |rest| :: Fires(rest[k], rolls[1..][k]) by {
          forall k | 0 <= k < |rest| ensures Fires(rest[k], rolls[1..][k]) {
            assert rest[k] == available[k + 1] && rolls[1..][k] == rolls[k + 1];
          }
        }
        assert Fired(available, rolls) == [available[0]] + rest;
        assert Kept(available, rolls) == [] + Kept(rest, rolls[1..]);
      }
    }
  }

  /** Each position is below every later one. */
  predicate Ascending(s: seq<nat>)
  {
    forall i, j | 0 <= i < j < |s| :: s[i] < s[j]
  }

  /** `x` is the position, counted from `offset`, of an event of the pool that fires. */
  predicate IndexFires(available: seq<Event>, rolls: seq<real>, offset: nat, x: nat)
    requires |rolls| == |available|
  {
    offset <= x < offset + |available| && Fires(available[x - offset], rolls[x - offset])
  }

  /**
   * The recorded positions are strictly ascending, and each lies inside the pool and is the
   * position of an event that fires.
   */
  lemma {:induction false} FiredIndicesValid(available: seq<Event>, rolls: seq<real>, offset: nat)
    requires |rolls| == |available|
    ensures forall x | x in FiredIndices(available, rolls, offset) :: IndexFires(available, rolls, offset, x)
    ensures Ascending(FiredIndices(available, rolls, offset))
  {
    if available != [] {
      var rest, later := available[1..], rolls[1..];
      FiredIndicesValid(rest, later, offset + 1);
      var tail := FiredIndices(rest, later, offset + 1);
      var r := FiredIndices(available, rolls, offset);
      forall x | x in tail
        ensures offset < x && IndexFires(available, rolls, offset, x)
      {
        assert IndexFires(rest, later, offset + 1, x);
        assert rest[x - (offset + 1)] == available[x - offset] && later[x - (offset + 1)] == rolls[x - offset];
      }
      if Fires(available[0], rolls[0]) {
        assert r == [offset] + tail;
        assert IndexFires(available, rolls, offset, offset);
        forall i, j | 0 <= i < j < |r|
          ensures r[i] < r[j]
        {
          assert r[j] == tail[j - 1] && tail[j - 1] in tail;
          if i > 0 {
            assert r[i] == tail[i - 1];
          }
        }
      } else {
        assert r == tail;
      }
    }
  }

  lemma {:induction false} FiredIndicesCount(available: seq<Event>, rolls: seq<real>, offset: nat)
    requires |rolls| == |available|
    ensures |Fired(available, rolls)| == |FiredIndices(available, rolls, offset)|
  {
    if available != [] {
      FiredIndicesCount(available[1..], rolls[1..], offset + 1);
    }
  }

  /** One step of the scan over `available`, for each of the functions it builds up. */
  lemma ScanStep(events: seq<Event>, rolls: seq<real>, i: nat)
    requires |rolls| == |events| && i < |events|
    ensures var fires := Fires(events[i], rolls[i]);
      && FiredIndices(events[i..], rolls[i..], i)
         == (if fires then [i] else []) + FiredIndices(events[i + 1..], rolls[i + 1..], i + 1)
      && FiredEffects(events[i..], rolls[i..])
         == (if fires then events[i].effects else []) + FiredEffects(events[i + 1..], rolls[i + 1..])
      && Reverse(Fired(events[i..], rolls[i..]))
         == Reverse(Fired(events[i + 1..], rolls[i + 1..])) + (if fires then [events[i]] else [])
  {
    assert events[i..][1..] == events[i + 1..] && rolls[i..][1..] == rolls[i + 1..];
    var later := Fired(events[i + 1..], rolls[i + 1..]);
    if Fires(events[i], rolls[i]) {
      assert ([events[i]] + later)[1..] == later;
    } else {
      assert Fired(events[i..], rolls[i..]) == [] + later == later;
      assert Reverse(later) + [] == Reverse(later);
    }
  }

  /** Concatenation regroups freely. */
  lemma Regroup<T>(a: seq<T>, b: seq<T>, c: seq<T>)
    ensures (a + b) + c == a + (b + c)
    ensures a + [] == a && [] + c == c
  {
  }

  /** Pushes `more` onto the end of `queue`, one effect at a time. */
  method Push(queue: seq<Effect>, more: seq<Effect>) returns (r: seq<Effect>)
    ensures r == queue + more
  {
    r := queue;
    for j := 0 to |more|
      invariant r == queue + more[..j]
    {
      r := r + [more[j]];
    }
    assert more[..|more|] == more;
  }

  /** The news feed; `current` is shown most recent first. */
  class News {
    var available: seq<Event>
    var current: seq<Event>
    var realTime: real

    /** `News::new`: the feed as read from its data file, whose decoded fields are the parameters. */
    constructor (available: seq<Event>, current: seq<Event>, realTime: real)
      ensures this.available == available && this.current == current && this.realTime == realTime
    {
      this.available := available;
      this.current := current;
      this.realTime := realTime;
    }

    /**
     * `News::update`: once a second, every available event rolls against its chance; the
     * ones that fire queue their effects, go to the front of `current` and leave `available`.
     * `rolls[k]` is the draw made for `available[k]`.
     */
    method Update(effects: seq<Effect>, frameTime: real, rolls: seq<real>) returns (queued: seq<Effect>)
      requires |rolls| == |available|
      requires forall k | 0 <= k < |rolls| :: 0.0 <= rolls[k] < 1.0
      modifies this
      ensures old(realTime) + frameTime < 1.0 ==>
        realTime == old(realTime) + frameTime && available == old(available) &&
        current == old(current) && queued == effects
      ensures old(realTime) + frameTime >= 1.0 ==>
        realTime == old(realTime) + frameTime - 1.0 &&
        available == Kept(old(available), rolls) &&
        current == Reverse(Fired(old(available), rolls)) + old(current) &&
        queued == effects + FiredEffects(old(available), rolls)
    {
      queued := effects;
      realTime := realTime + frameTime;
      if realTime >= 1.0 {
        var triggered;
        triggered, queued := Trigger(effects, rolls);
        RemoveTriggered(triggered, rolls);
        realTime := realTime - 1.0;
      }
    }

    /**
     * The scan over `available`: records the position of each firing event, queues its
     * effects and pushes it onto the front of `current`.
     */
    method Trigger(effects: seq<Effect>, rolls: seq<real>) returns (triggered: seq<nat>, queued: seq<Effect>)
      requires |rolls| == |available|
      modifies this`current
      ensures triggered == FiredIndices(available, rolls, 0)
      ensures current == Reverse(Fired(available, rolls)) + old(current)
      ensures queued == effects + FiredEffects(available, rolls)
    {
      triggered, queued := [], effects;
      var events := available;
      var i := 0;
      while i < |events|
        invariant 0 <= i <= |events|
        invariant triggered + FiredIndices(events[i..], rolls[i..], i) == FiredIndices(events, rolls, 0)
        invariant Reverse(Fired(events[i..], rolls[i..])) + current == Reverse(Fired(events, rolls)) + old(current)
        invariant queued + FiredEffects(events[i..], rolls[i..]) == effects + FiredEffects(events, rolls)
      {
        var event := events[i];
        ScanStep(events, rolls, i);
        ghost var fires := Fires(event, rolls[i]);
        Regroup(triggered, if fires then [i] else [], FiredIndices(events[i + 1..], rolls[i + 1..], i + 1));
        Regroup(queued, if fires then event.effects else [], FiredEffects(events[i + 1..], rolls[i + 1..]));
        Regroup(Reverse(Fired(events[i + 1..], rolls[i + 1..])), if fires then [event] else [], current);
        if rolls[i] < event.chance {
          triggered := triggered + [i];
          queued := Push(queued, event.effects);
          current := [event] + current;
        }
        i := i + 1;
      }
      assert events[i..] == [] && rolls[i..] == [];
    }

    /** The compaction of the triggered positions leaves the events that did not fire. */
    method RemoveTriggered(triggered: seq<nat>, rolls: seq<real>)
      requires |rolls| == |available|
      requires triggered == FiredIndices(available, rolls, 0)
      modifies this`available
      ensures available == Kept(old(available), rolls)
    {
      CompactionKeepsUnfired([], available, rolls, 0);
      Regroup(available, [], available);
      Regroup(Kept(available, rolls), [], Kept(available, rolls));
      assert RemoveShifted(available, triggered, 0) == Kept(available, rolls);
      RemoveAll(triggered);
    }

    /** `available.remove(index - i)` for the i-th recorded position, in turn. */
    method RemoveAll(triggered: seq<nat>)
      modifies this`available
      ensures available == RemoveShifted(old(available), triggered, 0)
    {
      assert triggered[0..] == triggered;
      var removed := 0;
      while removed < |triggered|
        invariant 0 <= removed <= |triggered|
        invariant RemoveShifted(available, triggered[removed..], removed) == RemoveShifted(old(available), triggered, 0)
      {
        RemoveShiftedStep(available, triggered, removed, removed);
        available := RemoveAt(available, triggered[removed] - removed);
        removed := removed + 1;
      }
    }
  }

  /** One tick moves exactly the fired events: `available` shrinks by k and `current` grows by k. */
  lemma TickMovesFiredEvents(available: seq<Event>, current: seq<Event>, rolls: seq<real>)
    requires |rolls| == |available|
    ensures var k := |Fired(available, rolls)|;
      |Kept(available, rolls)| == |available| - k &&
      |Reverse(Fired(available, rolls)) + current| == |current| + k
  {
    FiredKeptPartition(available, rolls);
  }

  /** The most recent firing event is shown first; the old feed follows it unchanged. */
  lemma NewestFirst<T>(fired: seq<T>, current: seq<T>)
    requires fired != []
    ensures (Reverse(fired) + current)[0] == fired[|fired| - 1]
    ensures (Reverse(fired) + current)[|fired|..] == current
  {
    ReverseAt(fired, 0);
  }

  /** A lone event certain to fire leaves the pool, heads the feed and queues its effects once. */
  lemma CertainEventFires(event: Event, roll: real)
    requires event.chance == 1.0 && 0.0 <= roll < 1.0
    ensures Kept([event], [roll]) == []
    ensures Fired([event], [roll]) == [event]
    ensures FiredEffects([event], [roll]) == event.effects
  {
  }
}
