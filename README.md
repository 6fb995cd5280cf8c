# Concurrent Election Day, sequential core

Concurrent Election Day is a multithreaded simulation of an election: voters queue at a desk, a
poll clerk checks their identities, approved voters vote one at a time in a booth, and on the way
out a pollster may interview them. Beneath its monitors is sequential, stateful logic, and this
project models that logic in Dafny and proves what it promises:

- the containers: `MyArrayList`, a growable array with doubling, shift-left removal, bounds-checked
  access, linear search and clearing; and `GenericFIFO`, the queue built on it;
- the vote tally, `ElectionResults`, an array of per-party counters that `processVotes` fills;
- the station state, `PollingStation`: the open flag, the occupancy counter, the approval counter
  that saturates at the voter limit, and the identity issuer for reborn voters;
- the poll clerk's approval rule (`checkVoterID`, `isValidVoter`): no identity is approved twice,
  approvals never pass the limit, the station closes on the last approval, and once the limit is
  reached every voter left at the desk is rejected; and the final count (`endElection`);
- the queue front-ends `Desk`, `VotingBooth` and `ExitPoll`;
- the voter's weighted party choice, its lie to the pollster, its flags and its rebirth.

Every Java class becomes a Dafny class with the fields that carry its state (the few that serve
only threads, logs or the GUI are listed under "## Left out"), updated in place by methods with
`modifies` clauses. Each container also has a ghost abstract value (`Elements` for the list, the
enqueued and dequeued histories for the queue). Its `Valid()` predicate ties that value to the
array and the size field, and every method states its effect on that value. A Java `null` is
`None` of an `Option`. A thrown `IndexOutOfBoundsException` is an `IndexOutOfBounds` result that
carries the source's message. The `VotingParties` enum becomes its ordinal, 0 to 3, with PPS as 0.

Concurrency, timing and randomness are replaced by parameters and preconditions:

- a loop that waits on a monitor becomes a `requires` stating the condition that ends the wait;
- an interrupt during a wait becomes an `interrupted` parameter;
- `Random.nextInt` becomes an integer `draw` parameter, or a sequence of draws for a
  draw-until loop;
- the 0.95 rebirth coin becomes a boolean parameter.

The clerk's approval rule is written once, as the two-state predicate `PollClerk.ApprovalRule`.
It relates the state before one decision to the state after it. `CheckVoterID` guarantees it, and
`ServeNext` and `DrainDesk` build on it.

## Model

| member | source | states |
|---|---|---|
| `TallyTotal` | src/sd/main/ElectionResults.java:62-67 | every vote is counted for exactly one party: the per-party counts of a vote list sum to its length |
| `SumIncrement` | src/sd/main/ElectionResults.java:44-47 | raising one counter by one raises the sum of all counters by one |
| `MyArrayList.constructor` | src/sd/main/MyArrayList.java:13-16 | a new list is empty over a backing array of capacity 10 whose slots are all null |
| `MyArrayList.Add` | src/sd/main/MyArrayList.java:22-27 | the value is appended after the old elements, all kept; the array doubles exactly when it was full, so the size never exceeds the capacity |
| `MyArrayList.Resize` | src/sd/main/MyArrayList.java:67-73 | the new backing array is fresh, twice as long, and holds every stored element at its old index, with null after them |
| `MyArrayList.RemoveFirst` | src/sd/main/MyArrayList.java:32-42 | an empty list yields the "List is empty" exception and is unchanged; otherwise the old first element is returned and the rest keep their order, shifted left by one |
| `MyArrayList.Get` | src/sd/main/MyArrayList.java:49-54 | an index in [0, size) yields its element, any other index the "Invalid index" exception |
| `MyArrayList.Size` | src/sd/main/MyArrayList.java:60-62 | the size is the number of stored elements |
| `MyArrayList.Query` | src/sd/main/MyArrayList.java:80-87 | true exactly when the value is among the stored elements |
| `MyArrayList.Clear` | src/sd/main/MyArrayList.java:92-95 | the list becomes empty over a fresh array of capacity 10, so every later query is false |
| `MyArrayList.SelfTestFill` | src/sd/main/MyArrayList.java:98-110 | eleven adds, one past the initial capacity, store 1 to 11 in order and double the array to 20 |
| `MyArrayList.SelfTest` | src/sd/main/MyArrayList.java:98-117 | the class's own test: size 11, 11 found, 12 not found; after clearing, size 0 and 3 not found |
| `GenericFIFO.constructor` | src/sd/main/GenericFIFO.java:12-14 | a new queue is empty and has seen no enqueue or dequeue |
| `GenericFIFO.EnQueue` | src/sd/main/GenericFIFO.java:20-23 | the element joins the back of the queue and the history of enqueued elements |
| `GenericFIFO.DeQueue` | src/sd/main/GenericFIFO.java:29-35 | an empty queue yields null and is unchanged; otherwise the oldest element is removed and returned, and the n-th element dequeued is the n-th element enqueued |
| `GenericFIFO.Front` | src/sd/main/GenericFIFO.java:41-43 | the oldest element, left in place; on an empty queue the exception of `get(0)` |
| `GenericFIFO.IsEmpty` | src/sd/main/GenericFIFO.java:49-56 | true exactly when the queue holds nothing |
| `GenericFIFO.Size` | src/sd/main/GenericFIFO.java:62-64 | the number of queued elements, equal to enqueues minus successful dequeues |
| `ElectionResults.constructor` | src/sd/main/ElectionResults.java:14-18 | every party starts with zero votes |
| `ElectionResults.Put` | src/sd/main/ElectionResults.java:25-28 | the party's count becomes the value; no other count changes |
| `ElectionResults.Get` | src/sd/main/ElectionResults.java:35-38 | the party's current count |
| `ElectionResults.Increment` | src/sd/main/ElectionResults.java:44-47 | the party's count rises by one, no other changes, and the total rises by one |
| `ElectionResults.Clear` | src/sd/main/ElectionResults.java:53-56 | the party's count becomes zero; no other count changes |
| `ElectionResults.ProcessVotes` | src/sd/main/ElectionResults.java:62-67 | each party's count rises by its number of occurrences in the vote list, and the total by the list's length |
| `PollingStation.constructor` | src/sd/main/PollingStation.java:14-24 | a new station is closed, has approved nobody, holds nobody, keeps the given capacity, limit and identity offset, and owns a fresh empty desk and booth |
| `PollingStation.Open` | src/sd/main/PollingStation.java:26-33 | the station is open; only the open flag changes |
| `PollingStation.Close` | src/sd/main/PollingStation.java:35-42 | the station is closed; only the open flag changes, so closing twice is closing once |
| `PollingStation.PollingStationIsOpen` | src/sd/main/PollingStation.java:44-46 | the open flag |
| `PollingStation.GetStationCapacity` | src/sd/main/PollingStation.java:48-50 | the capacity, which is fixed at construction |
| `PollingStation.GetVoterLimit` | src/sd/main/PollingStation.java:56-58 | the voter limit, which is fixed at construction |
| `PollingStation.GetVoterOffset` | src/sd/main/PollingStation.java:60-62 | the number of voters approved so far |
| `PollingStation.GetCurrentVoters` | src/sd/main/PollingStation.java:64-66 | the number of voters inside |
| `PollingStation.GetVoterIdOffset` | src/sd/main/PollingStation.java:72-75 | increments, then returns the new value: every issued identity is above the initial offset and above all issued before it |
| `PollingStation.IncrementVoterOffset` | src/sd/main/PollingStation.java:77-84 | no change when the count equals the limit, one more otherwise; a count within a non-negative limit stays within it |
| `PollingStation.IncrementCurrentVoters` | src/sd/main/PollingStation.java:87-91 | occupancy rises by exactly one, with no bound check |
| `PollingStation.DecrementCurrentVoters` | src/sd/main/PollingStation.java:93-97 | occupancy falls by exactly one, with no bound check |
| `IssuedAvoidsInitialIds` | src/sd/main/Main.java:34-35 | with the station seeded with the number of voters (line 22) and the voters numbered 1 to that number, no identity issued for a rebirth is an initial voter's |
| `Desk.constructor` | src/sd/main/Desk.java:15-19 | a new desk has an empty, fresh queue |
| `Desk.EnterDeskQueue` | src/sd/main/Desk.java:25-53 | once the wait for room is over: a closed station leaves the queue and occupancy unchanged; an open one adds one to occupancy and puts the voter at the back of the queue |
| `Desk.ExitDeskQueue` | src/sd/main/Desk.java:59-76 | a queued voter is removed from the head and returned, so voters leave in arrival order; an interrupt during the wait on an empty queue returns null and changes nothing |
| `Desk.IsEmpty` | src/sd/main/Desk.java:90-92 | true exactly when no voter is queued |
| `VotingBooth.constructor` | src/sd/main/VotingBooth.java:15-19 | a new booth has no votes and an empty queue |
| `VotingBooth.CastVote` | src/sd/main/VotingBooth.java:26-61 | an empty booth queue makes the first `front()` throw "Invalid index"; otherwise, with the voter at the head of the queue, the voter's party, and nothing that identifies the voter, is appended to the votes and the voter is marked as having voted; an interrupt leaves both unchanged |
| `VotingBooth.EnterBoothQueue` | src/sd/main/VotingBooth.java:67-70 | the voter joins the back of the booth queue |
| `VotingBooth.ExitBoothQueue` | src/sd/main/VotingBooth.java:76-80 | the head voter is removed and returned, or null when the queue is empty |
| `VotingBooth.GetVotes` | src/sd/main/VotingBooth.java:86-88 | the booth's own vote list, not a copy |
| `ExitPoll.constructor` | src/sd/main/ExitPoll.java:14-17 | a new exit poll is open and empty |
| `ExitPoll.AddVoter` | src/sd/main/ExitPoll.java:23-28 | while open the voter joins the back of the queue; once closed the queue is unchanged |
| `ExitPoll.RemoveVoter` | src/sd/main/ExitPoll.java:34-36 | without waiting: null and no change when empty, otherwise the oldest voter, removed |
| `ExitPoll.Close` | src/sd/main/ExitPoll.java:42-45 | the exit poll is closed; only that flag changes, and no method reopens it |
| `ExitPoll.IsEmpty` | src/sd/main/ExitPoll.java:51-53 | true exactly when no voter is queued |
| `WeightPrefixSums` | src/sd/main/Voter.java:231-246 | the running totals of the weights 50, 20, 20, 10 are 50, 70, 90 and 100 |
| `EveryDrawHasBand` | src/sd/main/Voter.java:231-249 | the weights sum to 100, so every draw of `nextInt(100)` falls in a party's band and the fallback is never taken |
| `Voter.ChooseParty` | src/sd/main/Voter.java:229-250 | a draw below 50 gives PPS, [50, 70) the second party, [70, 90) the third, [90, 100) the fourth; only a draw outside every band gets the PPS fallback |
| `Voter.constructor` | src/sd/main/Voter.java:26-39 | the voter has the given identity, station and exit poll, the party chosen by the draw, and every flag false |
| `Voter.GetVoterId` | src/sd/main/Voter.java:172-174 | the voter's identity |
| `Voter.GetParty` | src/sd/main/Voter.java:180-182 | the voter's party |
| `Voter.GetRandomParty` | src/sd/main/Voter.java:189-197 | the first draw that differs from the actual party: the answer is never the actual party |
| `Voter.SetWasInterviewd` | src/sd/main/Voter.java:210-212 | the interview flag is flipped, not set |
| `Voter.SetApproved` | src/sd/main/Voter.java:217-219 | the approval flag takes exactly the given value |
| `Voter.HasVoted` | src/sd/main/Voter.java:256-258 | the voted flag |
| `Voter.SetHasVoted` | src/sd/main/Voter.java:264-266 | the voted flag takes exactly the given value |
| `Voter.SetIsRejectedByPollClerk` | src/sd/main/Voter.java:271-273 | the rejection flag is set; this method never clears it |
| `Voter.RebornVoter` | src/sd/main/Voter.java:305-326 | the voted, approved and rejected flags are cleared, the interview flag flips, the party is chosen again; with the coin the identity becomes the station's next issued one, otherwise it and the issuer are unchanged |
| `PollClerk.constructor` | src/sd/main/PollClerk.java:20-28 | a clerk starts with an empty registry of approved identities |
| `PollClerk.IsValidVoter` | src/sd/main/PollClerk.java:170-172 | true exactly when the voter's identity is not in the registry |
| `PollClerk.CheckVoterID` | src/sd/main/PollClerk.java:88-139 | the approval rule. A duplicate identity is rejected. A new one is rejected once the count has reached the limit. Otherwise the count rises by one, the identity is recorded, the voter is approved, and the station closes exactly when this approval reaches the limit. Only the rejection path sets the rejection flag and changes nothing else. No identity is ever approved twice, and the registry's length equals the count, which stays within the limit. |
| `PollClerk.ServeNext` | src/sd/main/PollClerk.java:40-56 | one turn of the clerk's loop: the head of the desk queue is removed and decided by the approval rule, and only that voter's approval and rejection flags may change; an interrupt on an empty desk changes nothing |
| `PollClerk.DrainDesk` | src/sd/main/PollClerk.java:41-49 | once the count equals the limit the desk is emptied, every voter who was queued is rejected and none has its approval flag changed, and the registry, the count and the open flag are unchanged |
| `PollClerk.EndElection` | src/sd/main/PollClerk.java:144-155 | each party's tally rises by its number of votes in the booth's list, and the total by the number of votes cast; from a fresh tally the counts are exactly the per-party tally of the list and sum to its length |

## Left out

- Threads and monitors are not modelled: the `run` bodies of `Voter`, `PollClerk` and `Pollster`, and every `wait`, `notify` and `notifyAll`. Each blocking loop appears as the `requires` that ends its wait, or as an `interrupted` parameter. Concurrency is outside a sequential model.
- The station capacity is not claimed as an invariant. `Desk.enterDeskQueue` releases the station's lock after its wait and only then counts the voter in (src/sd/main/Desk.java:37-46). Two voters can both pass the check, so the code does not guarantee `currentVoters <= stationCapacity`.
- `Thread.sleep` delays are not modelled: they are timing only. The interrupted-sleep early return of `checkVoterID` (src/sd/main/PollClerk.java:91-97) and the interrupted sleep inside `castVote` are covered only as far as they change state: `CastVote` has an `interrupted` parameter, and `CheckVoterID` is modelled from the point after the sleep.
- `Random`, `Math.random` and the double-valued probabilities (`respnseProbability`, `lieProbability`, the 0.95 rebirth chance) are not modelled. Draws and coins are parameters instead, since floating point and randomness are outside the model. `respondToPollster` only sleeps and logs, and is left out with them; its one computation, `getRandomParty`, is modelled.
- Voter.ChooseParty: the first loop, which sums the weights into the bound of `nextInt`, is not modelled. The draw is a parameter, and `EveryDrawHasBand` states the range that bound gives it.
- Voter.GetRandomParty: the draw-until loop is given a finite sequence of draws, at least one of which differs from the actual party. A run of draws that never differs, which has probability zero, is not modelled.
- `Pollster.java` is not part of this model. It is a thread loop over random selections, and its effect on a voter is `Voter.SetWasInterviewd`.
- `ElectionSimulationGUI.java`, `Logger.java`, `ElectionResults.display`, `Voter.toString` and the input handling of `Main.java` are user interface and I/O only.
- The fields `ElectionResults.keys` (the enum's constants, used only by `display`), `processedVoters`, `hasVotersToInterview`, `isElectionDayDone`, `respnseProbability`, `lieProbability` and `logger`, the getters `getClerkID`, `getHasVotersToInterview` and `getWasInterviewd`, and `Desk.getPollClerk` with the desk's clerk reference are not modelled. They only serve the threads, the logs or the GUI.
- PollClerk.constructor: the model takes the station directly. `Main` creates the clerk with a null station and attaches it later with `setPollingStationToClerk` (src/sd/main/Main.java:20-26).
- The clerk's final wait for the station to empty (src/sd/main/PollClerk.java:59-71) is not modelled. `EndElection` is the step that follows it.
- Java's 32-bit `int` wrap-around is not modelled: counters and identities are unbounded integers. The approval count saturates at the voter limit, itself a Java `int`, and the vote counts never exceed the votes cast. The identity issuer, though, rises once per rebirth, and rebirths repeat while the station is open; the model does not capture its wrap-around after 2^31 - 1.
- `VotingParties.java` is not part of this model. The enum is taken to have four constants, one per weight, with PPS first.
