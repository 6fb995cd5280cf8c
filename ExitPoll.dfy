// ExitPoll: the queue of voters leaving the booth, polled without blocking by the pollster.

class ExitPoll {
  const exitPollQueue: GenericFIFO<Voter>
  var isPollingStationOpen: bool

  ghost predicate Valid()
    reads exitPollQueue, exitPollQueue.Repr
  {
    exitPollQueue.Valid()
  }

  ghost function Repr(): set<object>
    reads exitPollQueue
  {
    exitPollQueue.Repr
  }

  /** The waiting voters, oldest first. */
  ghost function Queue(): seq<Voter>
    reads exitPollQueue, exitPollQueue.data
  {
    exitPollQueue.Contents()
  }

  /** A new exit poll is open and empty. */
  constructor ()
    ensures Valid() && fresh(Repr())
    ensures isPollingStationOpen && Queue() == []
  {
    exitPollQueue := new GenericFIFO<Voter>();
    isPollingStationOpen := true;
  }

  /** Queues the voter at the back while open; once closed, the voter is silently dropped. */
  method AddVoter(voter: Voter)
    requires Valid()
    modifies Repr()
    ensures Valid() && fresh(Repr() - old(Repr()))
    ensures Queue() == if isPollingStationOpen then old(Queue()) + [voter] else old(Queue())
  {
    if isPollingStationOpen {
      exitPollQueue.EnQueue(voter);
    }
  }

  /** Takes the oldest voter, or null at once when there is none: the caller does not wait. */
  method RemoveVoter() returns (v: Option<Voter>)
    requires Valid()
    modifies Repr()
    ensures Valid() && Repr() == old(Repr())
    ensures old(Queue()) == [] ==> v == None && Queue() == old(Queue())
    ensures old(Queue()) != [] ==> v == Some(old(Queue())[0]) && Queue() == old(Queue())[1..]
  {
    var empty := exitPollQueue.IsEmpty();
    if empty {
      return None;
    }
    v := exitPollQueue.DeQueue();
  }

  /** Stops accepting voters; nothing reopens the exit poll, and closing twice is closing once. */
  method Close()
    modifies this`isPollingStationOpen
    ensures !isPollingStationOpen
  {
    isPollingStationOpen := false;
  }

  method IsEmpty() returns (empty: bool)
    requires Valid()
    ensures empty <==> Queue() == []
  {
    empty := exitPollQueue.IsEmpty();
  }
}
