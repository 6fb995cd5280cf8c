// Desk: the admission queue of voters waiting for the poll clerk's identity check.

class Desk {
  const deskQueue: GenericFIFO<Voter>

  ghost predicate Valid()
    reads deskQueue, deskQueue.Repr
  {
    deskQueue.Valid()
  }

  ghost function Repr(): set<object>
    reads deskQueue
  {
    deskQueue.Repr
  }

  /** The waiting voters, in arrival order. */
  ghost function Queue(): seq<Voter>
    reads deskQueue, deskQueue.data
  {
    deskQueue.Contents()
  }

  constructor ()
    ensures Valid() && fresh(Repr()) && Queue() == []
  {
    deskQueue := new GenericFIFO<Voter>();
  }

  /** What enterDeskQueue does once its wait for room has ended: a closed station turns the
      voter away untouched; an open one counts the voter in and queues it at the back. */
  method EnterDeskQueue(v: Voter, station: PollingStation)
    requires Valid()
    requires station.currentVoters < station.stationCapacity || !station.isOpen
    modifies Repr(), station`currentVoters
    ensures Valid() && fresh(Repr() - old(Repr()))
    ensures old(station.isOpen) ==>
      Queue() == old(Queue()) + [v] && station.currentVoters == old(station.currentVoters) + 1
    ensures !old(station.isOpen) ==>
      Queue() == old(Queue()) && station.currentVoters == old(station.currentVoters)
  {
    var open := station.PollingStationIsOpen();
    if !open {
      return;
    }
    station.IncrementCurrentVoters();
    deskQueue.EnQueue(v);
  }

  /** Takes the voter at the head of the queue. The wait for a voter ends either with a voter
      queued or with an interrupt, which returns null and leaves the queue as it is. */
  method ExitDeskQueue(interrupted: bool) returns (v: Option<Voter>)
    requires Valid()
    requires Queue() != [] || interrupted
    modifies Repr()
    ensures Valid() && Repr() == old(Repr())
    ensures old(Queue()) == [] ==> v == None && Queue() == old(Queue())
    ensures old(Queue()) != [] ==> v == Some(old(Queue())[0]) && Queue() == old(Queue())[1..]
  {
    var empty := deskQueue.IsEmpty();
    if empty {
      // interrupted while waiting
      return None;
    }
    v := deskQueue.DeQueue();
  }

  method IsEmpty() returns (empty: bool)
    requires Valid()
    ensures empty <==> Queue() == []
  {
    empty := deskQueue.IsEmpty();
  }
}
