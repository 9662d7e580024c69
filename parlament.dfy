/** The parlament: parties vote on the law at the front of the queue every 20 seconds. */
module ParlamentComponent {
  import opened Effects
  import opened NewsComponent

  /** Seconds between two votes. */
  const VotingTime: real := 20.0

  /** A vote passes with strictly more than half of the popularity behind it. */
  const Majority: real := 0.5

  /** The news source that reports the outcome of every vote. */
  const Reporter: string := "Muchekipchen Watcher"

  datatype Party = Party(approval: real, popularity: real)

  /** `effects` are carried with the law; this version of the parlament never queues them. */
  datatype Law = Law(title: string, description: string, requiredApproval: real, publicity: real, effects: seq<Effect>)

  /**
   * The popularity of the parties whose approval reaches `required`: the votes a law gets.
   * A law no party supports gets no votes.
   */
  function SupportSum(parties: seq<Party>, required: real): (r: real)
    ensures (forall k | 0 <= k < |parties| :: parties[k].approval < required) ==> r == 0.0
  {
    if parties == [] then 0.0
    else (if parties[0].approval >= required then parties[0].popularity else 0.0) + SupportSum(parties[1..], required)
  }

  /** The popularity of all parties together. */
  function TotalPopularity(parties: seq<Party>): real
  {
    if parties == [] then 0.0 else parties[0].popularity + TotalPopularity(parties[1..])
  }

  /** Replacing one party changes the total popularity by that party's difference alone. */
  lemma {:induction false} TotalPopularityUpdate(parties: seq<Party>, i: nat, p: Party)
    requires i < |parties|
    ensures TotalPopularity(parties[i := p]) == TotalPopularity(parties) - parties[i].popularity + p.popularity
  {
    if i > 0 {
      assert parties[i := p][1..] == parties[1..][i - 1 := p];
      TotalPopularityUpdate(parties[1..], i - 1, p);
    }
  }

  /** With non-negative popularity, the votes are between nothing and everyone's popularity. */
  lemma {:induction false} SupportBounds(parties: seq<Party>, required: real)
    requires forall k | 0 <= k < |parties| :: parties[k].popularity >= 0.0
    ensures 0.0 <= SupportSum(parties, required) <= TotalPopularity(parties)
  {
    if parties != [] {
      SupportBounds(parties[1..], required);
    }
  }

  /** A law everyone approves of enough gets every party's popularity. */
  lemma {:induction false} UnanimousSupport(parties: seq<Party>, required: real)
    requires forall k | 0 <= k < |parties| :: parties[k].approval >= required
    ensures SupportSum(parties, required) == TotalPopularity(parties)
  {
    if parties != [] {
      UnanimousSupport(parties[1..], required);
    }
  }

  /** With non-negative popularities, raising the required approval can only lose votes. */
  lemma {:induction false} SupportAntitone(parties: seq<Party>, lower: real, higher: real)
    requires lower <= higher
    requires forall k | 0 <= k < |parties| :: parties[k].popularity >= 0.0
    ensures SupportSum(parties, higher) <= SupportSum(parties, lower)
  {
    if parties != [] {
      SupportAntitone(parties[1..], lower, higher);
    }
  }

  /** The vote count loop of `Parlament::update`. */
  method CountVotes(parties: seq<Party>, required: real) returns (votes: real)
    ensures votes == SupportSum(parties, required)
  {
    votes := 0.0;
    var i := 0;
    while i < |parties|
      invariant 0 <= i <= |parties|
      invariant votes + SupportSum(parties[i..], required) == SupportSum(parties, required)
    {
      assert parties[i..][1..] == parties[i + 1..];
      if parties[i].approval >= required {
        votes := votes + parties[i].popularity;
      }
      i := i + 1;
    }
    assert parties[i..] == [];
  }

  /** The front law moved to the back: `push_back(front.clone())` then `pop_front()`. */
  function Rotate<T>(laws: seq<T>): (r: seq<T>)
    requires laws != []
    ensures |r| == |laws| && multiset(r) == multiset(laws)
    ensures r[|r| - 1] == laws[0] && r[..|r| - 1] == laws[1..]
  {
    var r := (laws + [laws[0]])[1..];
    assert laws == [laws[0]] + laws[1..];
    assert r == laws[1..] + [laws[0]];
    r
  }

  /** `k` passes in a row. */
  function RotateTimes<T>(laws: seq<T>, k: nat): (r: seq<T>)
    requires laws != []
    ensures |r| == |laws|
    decreases k
  {
    if k == 0 then laws else RotateTimes(Rotate(laws), k - 1)
  }

  /** One pass on the queue split at `j` gives the queue split at `j + 1`. */
  lemma RotateSplit<T>(laws: seq<T>, j: nat)
    requires j < |laws|
    ensures Rotate(laws[j..] + laws[..j]) == laws[j + 1..] + laws[..j + 1]
  {
    var t := laws[j..] + laws[..j];
    assert t[0] == laws[j];
    assert t[1..] == laws[j + 1..] + laws[..j];
    assert laws[..j + 1] == laws[..j] + [laws[j]];
  }

  lemma {:induction false} RotateTimesFrom<T>(laws: seq<T>, j: nat, k: nat)
    requires j + k <= |laws| && laws != []
    ensures RotateTimes(laws[j..] + laws[..j], k) == laws[j + k..] + laws[..j + k]
    decreases k
  {
    if k > 0 {
      var t := laws[j..] + laws[..j];
      RotateSplit(laws, j);
      assert RotateTimes(t, k) == RotateTimes(laws[j + 1..] + laws[..j + 1], k - 1);
      RotateTimesFrom(laws, j + 1, k - 1);
    }
  }

  /** After `k <= |laws|` passes the queue reads `laws[k..] + laws[..k]`; after `|laws|` it is back. */
  lemma RotateTimesSplits<T>(laws: seq<T>, k: nat)
    requires laws != [] && k <= |laws|
    ensures RotateTimes(laws, k) == laws[k..] + laws[..k]
    ensures k == |laws| ==> RotateTimes(laws, k) == laws
  {
    assert laws[0..] == laws && laws[..0] == [];
    assert laws[0..] + laws[..0] == laws;
    RotateTimesFrom(laws, 0, k);
    assert laws[|laws|..] == [] && laws[..|laws|] == laws;
  }

  /** The report of a passed law. */
  function PassedEvent(title: string): (r: Event)
    ensures r.source == Reporter && r.effects == [] && r.chance == 0.0
    ensures |r.description| > 12 + |title| && r.description[12..12 + |title|] == title
  {
    NewEvent(Reporter, "Das Gesetz \"" + title + "\"\nwurde verabschiedet.")
  }

  /** The report of a rejected law. */
  function RejectedEvent(title: string): (r: Event)
    ensures r.source == Reporter && r.effects == [] && r.chance == 0.0
    ensures |r.description| > 12 + |title| && r.description[12..12 + |title|] == title
    ensures r != PassedEvent(title)
  {
    NewEvent(Reporter, "Das Gesetz \"" + title + "\"\nwurde abgelehnt.")
  }

  class Parlament {
    var parties: seq<Party>
    var votingTime: real
    var availableLaws: seq<Law>
    var passedLaws: seq<Law>

    /** A parlament built from its four fields, as the struct's public fields allow. */
    constructor (parties: seq<Party>, votingTime: real, availableLaws: seq<Law>, passedLaws: seq<Law>)
      ensures this.parties == parties && this.votingTime == votingTime
      ensures this.availableLaws == availableLaws && this.passedLaws == passedLaws
    {
      this.parties := parties;
      this.votingTime := votingTime;
      this.availableLaws := availableLaws;
      this.passedLaws := passedLaws;
    }

    /**
     * `Parlament::update`: once `votingTime` reaches 20 seconds the front law is put to the
     * vote and the outcome is pushed onto the front of `news`; a passed law goes to the back of
     * the queue, a rejected one stays in front.
     */
    method Update(news: seq<Event>, frameTime: real) returns (reported: seq<Event>)
      requires votingTime / VotingTime >= 1.0 ==> availableLaws != []
      modifies this`votingTime, this`availableLaws
      ensures parties == old(parties) && passedLaws == old(passedLaws)
      ensures old(votingTime) / VotingTime < 1.0 ==>
        availableLaws == old(availableLaws) && reported == news && votingTime == old(votingTime) + frameTime
      ensures old(votingTime) / VotingTime >= 1.0 ==>
        var law := old(availableLaws)[0];
        var passes := SupportSum(parties, law.requiredApproval) > Majority;
        && votingTime == old(votingTime) - VotingTime + frameTime
        && availableLaws == (if passes then Rotate(old(availableLaws)) else old(availableLaws))
        && reported == [if passes then PassedEvent(law.title) else RejectedEvent(law.title)] + news
    {
      reported := news;
      var progress := votingTime / VotingTime;
      if progress >= 1.0 {
        var law := availableLaws[0];
        var votes := CountVotes(parties, law.requiredApproval);
        if votes > Majority {
          reported := [PassedEvent(law.title)] + reported;
          availableLaws := availableLaws + [law];
          availableLaws := availableLaws[1..];
        } else {
          reported := [RejectedEvent(law.title)] + reported;
        }
        votingTime := votingTime - VotingTime;
      }
      votingTime := votingTime + frameTime;
    }
  }
}
