/**
 * The earlier draft of the parlament (`src/law.rs`): a 60-second voting timer and a tally
 * at a fixed approval threshold of 0.5, whose pass branch does nothing yet.
 */
module LawDraft {
  import opened ParlamentComponent

  /** One draft voting round lasts this many seconds. */
  const DraftVotingTime: real := 60.0
  /** The approval a party needs for its popularity to count, and the share a law needs. */
  const DraftThreshold: real := 0.5

  /** A law of the draft: a description, the approval it needs and its publicity. */
  datatype DraftLaw = DraftLaw(description: string, requiredApproval: real, publicity: real)

  class Parlament {
    var parties: seq<Party>
    var availableLaws: seq<DraftLaw>
    var passedLaws: seq<DraftLaw>
    var votingTime: real

    /** A draft parlament built from its four fields, as the struct's public fields allow. */
    constructor (parties: seq<Party>, availableLaws: seq<DraftLaw>, passedLaws: seq<DraftLaw>, votingTime: real)
      ensures this.parties == parties && this.availableLaws == availableLaws
      ensures this.passedLaws == passedLaws && this.votingTime == votingTime
    {
      this.parties := parties;
      this.availableLaws := availableLaws;
      this.passedLaws := passedLaws;
      this.votingTime := votingTime;
    }

    /**
     * The draft's vote: the popularity of every party whose approval reaches 0.5. It takes
     * no law, so what the front law requires plays no part.
     */
    method Tally() returns (votes: real)
      ensures votes == SupportSum(parties, DraftThreshold)
      ensures (forall k | 0 <= k < |parties| :: parties[k].popularity >= 0.0) ==> 0.0 <= votes <= TotalPopularity(parties)
    {
      votes := 0.0;
      var i := 0;
      while i < |parties|
        invariant 0 <= i <= |parties|
        invariant votes + SupportSum(parties[i..], DraftThreshold) == SupportSum(parties, DraftThreshold)
      {
        assert parties[i..] == [parties[i]] + parties[i + 1..];
        if parties[i].approval >= DraftThreshold {
          votes := votes + parties[i].popularity;
        }
        i := i + 1;
      }
      if forall k | 0 <= k < |parties| :: parties[k].popularity >= 0.0 {
        SupportBounds(parties, DraftThreshold);
      }
    }

    /**
     * One frame of the draft: once a round is over the votes are counted, the round time is
     * taken off, and in every frame the frame time is added. Nothing else changes.
     */
    method Update(frameTime: real)
      modifies this`votingTime
      ensures votingTime == (if old(votingTime) / DraftVotingTime >= 1.0
                             then old(votingTime) - DraftVotingTime else old(votingTime)) + frameTime
      ensures old(votingTime) / DraftVotingTime < 1.0 ==> votingTime == old(votingTime) + frameTime
    {
      var progress := votingTime / DraftVotingTime;
      if progress >= 1.0 {
        var votes := Tally();
        if votes > DraftThreshold {
          // The draft does not pass the law yet.
        }
        votingTime := votingTime - DraftVotingTime;
      }
      votingTime := votingTime + frameTime;
    }
  }
}
