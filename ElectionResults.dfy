// ElectionResults: one vote counter per party, indexed by the party's ordinal.

class ElectionResults {
  const voteCounts: array<int>

  ghost predicate Valid()
    reads this
  {
    voteCounts.Length == PartyCount
  }

  /** The total number of votes counted over all parties. */
  ghost function Total(): int
    reads voteCounts
  {
    Sum(voteCounts[..])
  }

  /** A fresh tally holds zero votes for every party. */
  constructor ()
    ensures Valid() && fresh(voteCounts)
    ensures forall p: Party :: voteCounts[p] == 0
  {
    voteCounts := new int[PartyCount](_ => 0);
  }

  method Put(key: Party, value: int)
    requires Valid()
    modifies voteCounts
    ensures voteCounts[..] == old(voteCounts[..])[key := value]
  {
    voteCounts[key] := value;
  }

  method Get(key: Party) returns (n: int)
    requires Valid()
    ensures n == voteCounts[key]
  {
    n := voteCounts[key];
  }

  /** Counts one more vote for key; the total rises by exactly one. */
  method Increment(key: Party)
    requires Valid()
    modifies voteCounts
    ensures voteCounts[..] == old(voteCounts[..])[key := old(voteCounts[key]) + 1]
    ensures Total() == old(Total()) + 1
  {
    SumIncrement(voteCounts[..], key);
    voteCounts[key] := voteCounts[key] + 1;
  }

  method Clear(key: Party)
    requires Valid()
    modifies voteCounts
    ensures voteCounts[..] == old(voteCounts[..])[key := 0]
  {
    voteCounts[key] := 0;
  }

  /** Counts every vote of the list: each party gains its number of occurrences in the list,
      and the total gains the length of the list. */
  method ProcessVotes(votes: MyArrayList<Party>)
    requires Valid() && votes.Valid()
    modifies voteCounts
    ensures forall p: Party :: voteCounts[p] == old(voteCounts[p]) + Occurrences(votes.Elements, p)
    ensures Total() == old(Total()) + |votes.Elements|
  {
    var i := 0;
    var n := votes.Size();
    while i < n
      invariant 0 <= i <= n == |votes.Elements|
      invariant forall p: Party :: voteCounts[p] == old(voteCounts[p]) + Occurrences(votes.Elements[..i], p)
      invariant Total() == old(Total()) + i
    {
      var vote := votes.Get(i);
      assert votes.Elements[..i + 1][..i] == votes.Elements[..i];
      Increment(vote.value);
      i := i + 1;
    }
    assert votes.Elements[..i] == votes.Elements;
  }
}
