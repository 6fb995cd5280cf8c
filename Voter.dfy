// Voter: the per-voter state that the clerk, the booth and the pollster update, and the
// voter's own helpers for choosing a party and being reborn.

/** The weight of each party in a voter's choice, by ordinal: PPS has the largest. */
const Weights: seq<int> := [50, 20, 20, 10]

/** The party whose band of the draw range holds draw: below 50 is PPS, [50, 70) the second
    party, [70, 90) the third, [90, 100) the fourth; from 100 on there is no band. */
function WeightBand(draw: int): (band: Option<Party>)
{
  if draw < 50 then Some(0)
  else if draw < 70 then Some(1)
  else if draw < 90 then Some(2)
  else if draw < 100 then Some(3)
  else None
}

/** The running totals of the weights, as the choice loop accumulates them. */
lemma WeightPrefixSums()
  ensures Sum(Weights[..0]) == 0 && Sum(Weights[..1]) == 50 && Sum(Weights[..2]) == 70
  ensures Sum(Weights[..3]) == 90 && Sum(Weights[..4]) == 100
{
  assert Weights[..4][..3] == Weights[..3];
  assert Weights[..3][..2] == Weights[..2];
  assert Weights[..2][..1] == Weights[..1];
  assert Weights[..1][..0] == Weights[..0];
}

/** The weights sum to 100, so every draw the voter can make, nextInt(100), falls in a band and
    the fallback of chooseParty is never taken. */
lemma EveryDrawHasBand(draw: int)
  requires 0 <= draw < Sum(Weights)
  ensures WeightBand(draw).Some?
{
  WeightPrefixSums();
  assert Weights[..4] == Weights;
}

class Voter {
  var id: int
  var party: Party
  var isApproved: bool
  var hasVoted: bool
  var isRejectedByPollClerk: bool
  var wasInterviewed: bool
  const station: PollingStation
  const exitPoll: ExitPoll

  /** A new voter with the given id, a party chosen by partyDraw, and every flag false. */
  constructor (id: int, station: PollingStation, exitPoll: ExitPoll, partyDraw: int)
    ensures this.id == id && this.station == station && this.exitPoll == exitPoll
    ensures Some(party) == WeightBand(partyDraw) || (WeightBand(partyDraw) == None && party == PPS)
    ensures !isApproved && !hasVoted && !isRejectedByPollClerk && !wasInterviewed
  {
    var chosen := ChooseParty(partyDraw);
    this.id := id;
    party := chosen;
    this.station := station;
    isApproved := false;
    hasVoted := false;
    isRejectedByPollClerk := false;
    this.exitPoll := exitPoll;
    wasInterviewed := false;
  }

  method GetVoterId() returns (r: int)
    ensures r == id
  {
    r := id;
  }

  method GetParty() returns (p: Party)
    ensures p == party
  {
    p := party;
  }

  method HasVoted() returns (voted: bool)
    ensures voted == hasVoted
  {
    voted := hasVoted;
  }

  /** The weighted choice of a party for the draw randomValue, which stands for
      random.nextInt(totalWeight): the party of the band holding the draw, or PPS when none does. */
  static method ChooseParty(randomValue: int) returns (p: Party)
    ensures WeightBand(randomValue).Some? ==> p == WeightBand(randomValue).value
    ensures WeightBand(randomValue).None? ==> p == PPS
  {
    WeightPrefixSums();
    var cumulativeWeight := 0;
    var i := 0;
    while i < |Weights|
      invariant 0 <= i <= |Weights|
      invariant cumulativeWeight == Sum(Weights[..i])
      invariant i == 0 || randomValue >= cumulativeWeight
    {
      assert Weights[..i + 1][..i] == Weights[..i];
      cumulativeWeight := cumulativeWeight + Weights[i];
      if randomValue < cumulativeWeight {
        return i;
      }
      i := i + 1;
    }
    // default return: only draws of 100 or more get here
    return PPS;
  }

  /** The party a lying voter names: the first of the draws, each standing for
      random.nextInt of the number of parties, that differs from actualParty. */
  static method GetRandomParty(actualParty: Party, draws: seq<int>) returns (randomParty: Party)
    requires forall k :: 0 <= k < |draws| ==> 0 <= draws[k] < PartyCount
    requires exists k :: 0 <= k < |draws| && draws[k] != actualParty
    ensures randomParty != actualParty
    ensures exists k :: 0 <= k < |draws| && draws[k] == randomParty &&
                        (forall j :: 0 <= j < k ==> draws[j] == actualParty)
  {
    var i := 0;
    randomParty := draws[0];
    while randomParty == actualParty
      invariant 0 <= i < |draws| && randomParty == draws[i]
      invariant forall j :: 0 <= j < i ==> draws[j] == actualParty
      invariant exists k :: i <= k < |draws| && draws[k] != actualParty
      decreases |draws| - i
    {
      i := i + 1;
      randomParty := draws[i];
    }
  }

  /** The pollster's mark: it flips the flag rather than setting it. */
  method SetWasInterviewd()
    modifies this`wasInterviewed
    ensures wasInterviewed == !old(wasInterviewed)
  {
    wasInterviewed := !wasInterviewed;
  }

  method SetApproved(isApproved: bool)
    modifies this`isApproved
    ensures this.isApproved == isApproved
  {
    this.isApproved := isApproved;
  }

  method SetHasVoted(hasVoted: bool)
    modifies this`hasVoted
    ensures this.hasVoted == hasVoted
  {
    this.hasVoted := hasVoted;
  }

  /** The clerk's rejection mark: it can only be set, never cleared, by this method. */
  method SetIsRejectedByPollClerk()
    modifies this`isRejectedByPollClerk
    ensures isRejectedByPollClerk
  {
    isRejectedByPollClerk := true;
  }

  /** Starts the voter's next round: the approval, vote and rejection flags are cleared, the
      interview flag flips, a party is chosen again by partyDraw, and when takesNewId (which
      stands for Math.random() <= 0.95) the voter takes the station's next identity. */
  method RebornVoter(partyDraw: int, takesNewId: bool)
    requires station.IdsValid()
    modifies this, station`voterIdOffset, station`Issued
    ensures station.IdsValid()
    ensures !hasVoted && !isApproved && !isRejectedByPollClerk
    ensures wasInterviewed == !old(wasInterviewed)
    ensures Some(party) == WeightBand(partyDraw) || (WeightBand(partyDraw) == None && party == PPS)
    ensures takesNewId ==>
      id == old(station.voterIdOffset) + 1 && station.voterIdOffset == id && station.Issued == old(station.Issued) + [id]
    ensures !takesNewId ==>
      id == old(id) && station.voterIdOffset == old(station.voterIdOffset) && station.Issued == old(station.Issued)
  {
    hasVoted := false;
    isApproved := false;
    isRejectedByPollClerk := false;
    party := ChooseParty(partyDraw);
    SetWasInterviewd();
    if takesNewId {
      id := station.GetVoterIdOffset();
    }
  }
}
