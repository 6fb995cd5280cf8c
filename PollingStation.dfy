// PollingStation: the shared admission gate and its counters.

class PollingStation {
  /** How many voters may be inside at once. */
  const stationCapacity: int
  /** How many voters may be approved in the whole election (not validated: it may be negative). */
  const voterLimit: int
  /** Voters approved so far. */
  var voterOffset: int
  /** Voters inside the station now. */
  var currentVoters: int
  var isOpen: bool
  const desk: Desk
  const votingBooth: VotingBooth
  /** The last identity issued to a reborn voter. */
  var voterIdOffset: int

  /** The identity offset the station was created with: the initial voters' ids do not exceed it. */
  ghost const initialIdOffset: int
  /** Every identity issued so far, in the order issued. */
  ghost var Issued: seq<int>

  /** The counter invariant: the approval counter saturates at a non-negative limit. */
  ghost predicate Valid()
    reads this`voterOffset
  {
    0 <= voterOffset && (0 <= voterLimit ==> voterOffset <= voterLimit)
  }

  /** The identity invariant: the issued identities increase strictly, all above the initial
      offset and none above the last one issued; so no two coincide, and none is an initial id. */
  ghost predicate IdsValid()
    reads this`voterIdOffset, this`Issued
  {
    initialIdOffset <= voterIdOffset &&
    (forall i, j :: 0 <= i < j < |Issued| ==> Issued[i] < Issued[j]) &&
    (forall i :: 0 <= i < |Issued| ==> initialIdOffset < Issued[i] <= voterIdOffset)
  }

  /** A new station is closed and empty, has approved nobody, and owns a fresh desk and booth. */
  constructor (capacity: int, voterLimit: int, voterIdOffset: int)
    ensures Valid() && IdsValid()
    ensures stationCapacity == capacity && this.voterLimit == voterLimit
    ensures !isOpen && voterOffset == 0 && currentVoters == 0
    ensures this.voterIdOffset == voterIdOffset == initialIdOffset && Issued == []
    ensures fresh(desk) && fresh(desk.Repr()) && desk.Valid() && desk.Queue() == []
    ensures fresh(votingBooth) && fresh(votingBooth.Repr()) && votingBooth.Valid()
    ensures votingBooth.Queue() == [] && votingBooth.votes.Elements == []
  {
    this.voterLimit := voterLimit;
    stationCapacity := capacity;
    isOpen := false;
    votingBooth := new VotingBooth();
    desk := new Desk();
    voterOffset := 0;
    currentVoters := 0;
    this.voterIdOffset := voterIdOffset;
    initialIdOffset := voterIdOffset;
    Issued := [];
  }

  method Open()
    modifies this`isOpen
    ensures isOpen
  {
    isOpen := true;
  }

  /** Closes the station; closing a closed station changes nothing. */
  method Close()
    modifies this`isOpen
    ensures !isOpen
  {
    isOpen := false;
  }

  method PollingStationIsOpen() returns (open: bool)
    ensures open == isOpen
  {
    open := isOpen;
  }

  method GetStationCapacity() returns (capacity: int)
    ensures capacity == stationCapacity
  {
    capacity := stationCapacity;
  }

  method GetVoterLimit() returns (limit: int)
    ensures limit == voterLimit
  {
    limit := voterLimit;
  }

  method GetVoterOffset() returns (processed: int)
    ensures processed == voterOffset
  {
    processed := voterOffset;
  }

  method GetCurrentVoters() returns (inside: int)
    ensures inside == currentVoters
  {
    inside := currentVoters;
  }

  /** Issues a new identity: one more than the last one issued, so above every earlier one. */
  method GetVoterIdOffset() returns (id: int)
    requires IdsValid()
    modifies this`voterIdOffset, this`Issued
    ensures IdsValid()
    ensures id == old(voterIdOffset) + 1 && voterIdOffset == id
    ensures Issued == old(Issued) + [id]
    ensures id > initialIdOffset && forall i :: 0 <= i < |old(Issued)| ==> old(Issued)[i] < id
  {
    voterIdOffset := voterIdOffset + 1;
    Issued := Issued + [voterIdOffset];
    id := voterIdOffset;
  }

  /** Counts one more approved voter, unless the count has already reached the limit. */
  method IncrementVoterOffset()
    requires Valid()
    modifies this`voterOffset
    ensures Valid()
    ensures voterOffset == if old(voterOffset) == voterLimit then old(voterOffset) else old(voterOffset) + 1
  {
    if voterOffset == voterLimit {
      return;
    }
    voterOffset := voterOffset + 1;
  }

  /** One more voter inside; there is no bound check. */
  method IncrementCurrentVoters()
    modifies this`currentVoters
    ensures currentVoters == old(currentVoters) + 1
  {
    currentVoters := currentVoters + 1;
  }

  /** One voter fewer inside; there is no bound check. */
  method DecrementCurrentVoters()
    modifies this`currentVoters
    ensures currentVoters == old(currentVoters) - 1
  {
    currentVoters := currentVoters - 1;
  }
}

/** The station is seeded with the number of initial voters, who are numbered from 1 up to it;
    every identity issued for a rebirth lies above that seed, so none is an initial voter's. */
lemma IssuedAvoidsInitialIds(station: PollingStation, initialId: int)
  requires station.IdsValid()
  requires 1 <= initialId <= station.initialIdOffset
  ensures initialId !in station.Issued
{
}
