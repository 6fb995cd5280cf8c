// PollClerk: checks the identity of each voter taken from the desk, approves at most
// voterLimit distinct identities, closes the station on the last approval, and counts the votes.

/** Appending an element not yet present keeps a sequence free of duplicates. */
lemma NoDuplicatesAppend<T>(s: seq<T>, x: T)
  requires NoDuplicates(s) && x !in s
  ensures NoDuplicates(s + [x])
{
}

class PollClerk {
  /** The registry of every identity approved so far. */
  const idList: MyArrayList<int>
  const station: PollingStation
  const clerkID: int
  const electionResults: ElectionResults

  /** The clerk's invariant: no identity is approved twice, the station's processed counter is
      the number of approvals, and it never passes the limit (a negative limit admits nobody). */
  ghost predicate Valid()
    reads idList, idList.Repr, station`voterOffset
  {
    idList.Valid() && station.Valid() &&
    NoDuplicates(idList.Elements) &&
    |idList.Elements| == station.voterOffset &&
    (station.voterLimit < 0 ==> station.voterOffset == 0)
  }

  /** The approval rule, as one step from the old state to the new one: a fresh identity with
      room under the limit is approved, counted, recorded, and closes the station exactly when it
      is the last one the limit allows; any other voter is rejected and nothing else changes. */
  twostate predicate ApprovalRule(v: Voter)
    reads this, idList, station, v
  {
    var unseen := v.id !in old(idList.Elements);
    var room := old(station.voterOffset) < station.voterLimit;
    if unseen && room then
      idList.Elements == old(idList.Elements) + [v.id] &&
      station.voterOffset == old(station.voterOffset) + 1 &&
      station.isOpen == (old(station.isOpen) && station.voterOffset < station.voterLimit) &&
      v.isApproved && v.isRejectedByPollClerk == old(v.isRejectedByPollClerk)
    else
      idList.Elements == old(idList.Elements) &&
      station.voterOffset == old(station.voterOffset) &&
      station.isOpen == old(station.isOpen) &&
      v.isRejectedByPollClerk && v.isApproved == old(v.isApproved)
  }

  /** A clerk with an empty registry, for a station that has approved nobody yet. */
  constructor (station: PollingStation, clerkID: int, electionResults: ElectionResults)
    requires station.Valid() && station.voterOffset == 0
    ensures Valid() && fresh(idList.Repr) && idList.Elements == []
    ensures this.station == station && this.clerkID == clerkID && this.electionResults == electionResults
  {
    idList := new MyArrayList<int>();
    this.station := station;
    this.clerkID := clerkID;
    this.electionResults := electionResults;
  }

  /** A voter is valid when its identity has not been approved before. */
  method IsValidVoter(v: Voter) returns (valid: bool)
    requires idList.Valid()
    ensures valid <==> v.id !in idList.Elements
  {
    var id := v.GetVoterId();
    var seen := idList.Query(id);
    valid := !seen;
  }

  /** Decides on one voter by the approval rule, keeping the clerk's invariant. */
  method CheckVoterID(v: Voter)
    requires Valid()
    modifies idList.Repr, station`voterOffset, station`isOpen, v`isApproved, v`isRejectedByPollClerk
    ensures Valid() && fresh(idList.Repr - old(idList.Repr))
    ensures ApprovalRule(v)
  {
    var valid := IsValidVoter(v);
    if valid {
      var processed := station.GetVoterOffset();
      var limit := station.GetVoterLimit();
      if processed >= limit {
        // the limit was reached before this voter's turn
        v.SetIsRejectedByPollClerk();
        return;
      }
      station.IncrementVoterOffset();
      processed := station.GetVoterOffset();
      if processed >= limit {
        station.Close();
      }
      var id := v.GetVoterId();
      NoDuplicatesAppend(idList.Elements, id);
      idList.Add(id);
      v.SetApproved(true);
    } else {
      v.SetIsRejectedByPollClerk();
    }
  }

  /** One turn of the clerk's loop: take the next voter from the desk and decide on it. The
      wait for a voter ends with a voter or with an interrupt; only the voter taken is touched. */
  method ServeNext(interrupted: bool)
    requires Valid() && station.desk.Valid() && idList.Repr !! station.desk.Repr()
    requires station.desk.Queue() != [] || interrupted
    modifies idList.Repr, station`voterOffset, station`isOpen, station.desk.Repr()
    modifies (if station.desk.Queue() == [] then {} else {station.desk.Queue()[0]})`isApproved
    modifies (if station.desk.Queue() == [] then {} else {station.desk.Queue()[0]})`isRejectedByPollClerk
    ensures Valid() && station.desk.Valid() && idList.Repr !! station.desk.Repr()
    ensures fresh(idList.Repr - old(idList.Repr)) && station.desk.Repr() == old(station.desk.Repr())
    ensures old(station.desk.Queue()) == [] ==>
      station.desk.Queue() == [] && idList.Elements == old(idList.Elements) &&
      station.voterOffset == old(station.voterOffset) && station.isOpen == old(station.isOpen)
    ensures old(station.desk.Queue()) != [] ==>
      station.desk.Queue() == old(station.desk.Queue())[1..] && ApprovalRule(old(station.desk.Queue())[0])
  {
    var v := station.desk.ExitDeskQueue(interrupted);
    if v.Some? {
      CheckVoterID(v.value);
    }
  }

  /** The clerk's loop once the limit is reached: every voter still at the desk is taken and
      rejected, none of them is approved by it, and neither the registry, the counter nor the
      open flag changes. */
  method DrainDesk()
    requires Valid() && station.desk.Valid() && idList.Repr !! station.desk.Repr()
    requires station.voterOffset == station.voterLimit
    modifies idList.Repr, station`voterOffset, station`isOpen, station.desk.Repr()
    modifies (set w | w in station.desk.Queue())`isApproved
    modifies (set w | w in station.desk.Queue())`isRejectedByPollClerk
    ensures Valid() && station.desk.Valid() && idList.Repr !! station.desk.Repr()
    ensures station.desk.Queue() == []
    ensures idList.Elements == old(idList.Elements)
    ensures station.voterOffset == old(station.voterOffset) && station.isOpen == old(station.isOpen)
    ensures forall w :: w in old(station.desk.Queue()) ==>
              w.isRejectedByPollClerk && w.isApproved == old(w.isApproved)
  {
    var desk := station.desk;
    ghost var drained := desk.Queue();
    ghost var k := 0;
    ghost var outside := idList.Repr + desk.Repr();
    var empty := desk.IsEmpty();
    while !empty
      invariant Valid() && desk.Valid() && idList.Repr !! desk.Repr()
      invariant fresh(idList.Repr - old(idList.Repr)) && desk.Repr() == old(desk.Repr())
      invariant 0 <= k <= |drained| && desk.Queue() == drained[k..]
      invariant empty <==> desk.Queue() == []
      invariant idList.Elements == old(idList.Elements)
      invariant station.voterOffset == old(station.voterOffset) && station.isOpen == old(station.isOpen)
      invariant forall j :: 0 <= j < k ==> drained[j].isRejectedByPollClerk
      invariant forall j :: 0 <= j < |drained| ==> drained[j].isApproved == old(drained[j].isApproved)
      invariant outside == old(idList.Repr) + old(desk.Repr())
      invariant forall j :: 0 <= j < |drained| ==> drained[j] !in outside
      decreases |desk.Queue()|
    {
      // the limit leaves no room, so the voter taken is rejected
      ServeNext(false);
      k := k + 1;
      empty := desk.IsEmpty();
    }
    assert k == |drained|;
  }

  /** Counts the booth's votes into the election results: each party gains its number of votes
      in the booth's list, and the total gains the number of votes cast. From a fresh tally the
      counts are exactly the tally of the booth's list, and they sum to the number of votes. */
  method EndElection()
    requires electionResults.Valid() && station.votingBooth.Valid()
    modifies electionResults.voteCounts
    ensures forall p: Party ::
              electionResults.voteCounts[p] ==
              old(electionResults.voteCounts[p]) + Occurrences(station.votingBooth.votes.Elements, p)
    ensures electionResults.Total() == old(electionResults.Total()) + |station.votingBooth.votes.Elements|
    ensures old(forall p: Party :: electionResults.voteCounts[p] == 0) ==>
              electionResults.voteCounts[..] == Tally(station.votingBooth.votes.Elements) &&
              Sum(electionResults.voteCounts[..]) == |station.votingBooth.votes.Elements|
  {
    var votes := station.votingBooth.GetVotes();
    electionResults.ProcessVotes(votes);
    if old(forall p: Party :: electionResults.voteCounts[p] == 0) {
      TallyTotal(votes.Elements);
      assert electionResults.voteCounts[..] == Tally(votes.Elements);
    }
  }
}
