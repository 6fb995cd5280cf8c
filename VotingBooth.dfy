// VotingBooth: a single booth served in queue order; it keeps the votes, never the voters.

class VotingBooth {
  /** The votes cast, in casting order: parties only, with no link back to a voter. */
  const votes: MyArrayList<Party>
  const boothQueue: GenericFIFO<Voter>

  ghost predicate Valid()
    reads votes, votes.Repr, boothQueue, boothQueue.Repr
  {
    votes.Valid() && boothQueue.Valid() && votes.Repr !! boothQueue.Repr
  }

  ghost function Repr(): set<object>
    reads votes, boothQueue
  {
    votes.Repr + boothQueue.Repr
  }

  /** The voters waiting for or in the booth, in arrival order. */
  ghost function Queue(): seq<Voter>
    reads boothQueue, boothQueue.data
  {
    boothQueue.Contents()
  }

  constructor ()
    ensures Valid() && fresh(Repr())
    ensures votes.Elements == [] && Queue() == []
  {
    votes := new MyArrayList<Party>();
    boothQueue := new GenericFIFO<Voter>();
  }

  /** What castVote does. It first asks the queue for its head, which throws on an empty queue.
      Otherwise it waits until the voter is at the head; unless interrupted (while waiting or
      while in the booth), it then appends the voter's party, and nothing else, to the votes and
      marks the voter as having voted. */
  method CastVote(voter: Voter, interrupted: bool) returns (r: Result<()>)
    requires Valid()
    requires Queue() == [] || interrupted || Queue()[0] == voter
    modifies votes.Repr, voter`hasVoted
    ensures Valid() && fresh(votes.Repr - old(votes.Repr)) && Queue() == old(Queue())
    ensures Queue() == [] ==> r == IndexOutOfBounds("Invalid index")
    ensures Queue() != [] ==> r == Ok(())
    ensures (Queue() == [] || interrupted) ==>
      votes.Elements == old(votes.Elements) && voter.hasVoted == old(voter.hasVoted)
    ensures Queue() != [] && !interrupted ==>
      votes.Elements == old(votes.Elements) + [voter.party] && voter.hasVoted
  {
    var front := boothQueue.Front();
    if front.IndexOutOfBounds? {
      return IndexOutOfBounds(front.message);
    }
    if interrupted {
      return Ok(());
    }
    var party := voter.GetParty();
    votes.Add(party);
    voter.SetHasVoted(true);
    r := Ok(());
  }

  method EnterBoothQueue(voter: Voter)
    requires Valid()
    modifies boothQueue.Repr
    ensures Valid() && fresh(boothQueue.Repr - old(boothQueue.Repr))
    ensures Queue() == old(Queue()) + [voter]
  {
    boothQueue.EnQueue(voter);
  }

  /** Takes the voter at the head of the queue, or null when the queue is empty. */
  method ExitBoothQueue() returns (v: Option<Voter>)
    requires Valid()
    modifies boothQueue.Repr
    ensures Valid() && boothQueue.Repr == old(boothQueue.Repr)
    ensures old(Queue()) == [] ==> v == None && Queue() == old(Queue())
    ensures old(Queue()) != [] ==> v == Some(old(Queue())[0]) && Queue() == old(Queue())[1..]
  {
    v := boothQueue.DeQueue();
  }

  /** The booth's own vote list, shared with the caller rather than copied. */
  method GetVotes() returns (r: MyArrayList<Party>)
    ensures r == votes
  {
    r := votes;
  }
}
