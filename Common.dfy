// Values shared by every class of the election-day model.

/** A Java reference that may be null: None stands for null. */
datatype Option<T> = None | Some(value: T)

/** The outcome of a MyArrayList access: a value, or the IndexOutOfBoundsException it throws. */
datatype Result<T> = Ok(value: T) | IndexOutOfBounds(message: string)

/** The number of constants of the VotingParties enum. */
const PartyCount := 4

/** A party is represented by its ordinal in the VotingParties enum. */
type Party = p: int | 0 <= p < PartyCount

/** PPS, the first constant of VotingParties and the fallback of Voter.chooseParty. */
const PPS: Party := 0

/** The sum of a sequence of integers, peeled from the back as a left-to-right loop accumulates it. */
function Sum(s: seq<int>): (total: int)
{
  if s == [] then 0 else Sum(s[..|s| - 1]) + s[|s| - 1]
}

/** The number of times party p occurs in a list of votes. */
function Occurrences(s: seq<Party>, p: Party): (count: nat)
{
  if s == [] then 0
  else Occurrences(s[..|s| - 1], p) + (if s[|s| - 1] == p then 1 else 0)
}

/** The per-party counts of a list of votes, indexed by party ordinal. */
function Tally(s: seq<Party>): (t: seq<int>)
  ensures |t| == PartyCount
  ensures forall p: Party :: t[p] == Occurrences(s, p)
{
  seq(PartyCount, (p: int) requires 0 <= p < PartyCount => Occurrences(s, p))
}

predicate NoDuplicates<T(==)>(s: seq<T>)
{
  forall i, j :: 0 <= i < j < |s| ==> s[i] != s[j]
}

/** Adding one to a single entry adds one to the sum. */
lemma {:induction false} SumIncrement(s: seq<int>, k: nat)
  requires k < |s|
  ensures Sum(s[k := s[k] + 1]) == Sum(s) + 1
{
  var t := s[k := s[k] + 1];
  if k == |s| - 1 {
    assert t[..|t| - 1] == s[..|s| - 1];
  } else {
    SumIncrement(s[..|s| - 1], k);
    assert t[..|t| - 1] == s[..|s| - 1][k := s[k] + 1];
  }
}

/** Every vote is counted for exactly one party: the tally of a vote list sums to its length. */
lemma {:induction false} TallyTotal(s: seq<Party>)
  ensures Sum(Tally(s)) == |s|
{
  if s == [] {
    var z := Tally(s);
    assert z == [0, 0, 0, 0];
    assert Sum(z[..1]) == 0 && z[..2][..1] == z[..1];
    assert Sum(z[..2]) == 0 && z[..3][..2] == z[..2];
    assert Sum(z[..3]) == 0 && z[..3] == z[..|z| - 1];
  } else {
    var init, last := s[..|s| - 1], s[|s| - 1];
    TallyTotal(init);
    assert Tally(s) == Tally(init)[last := Tally(init)[last] + 1];
    SumIncrement(Tally(init), last);
  }
}
