/** The constant delta tables, each delta a (rank offset, file offset) pair. */
module Directions {

  type Delta = (int, int)

  const KnightDirections: seq<Delta> := [(1, 2), (2, 1), (-1, 2), (2, -1), (1, -2), (-2, 1), (-1, -2), (-2, -1)]
  const BishopDirections: seq<Delta> := [(1, 1), (1, -1), (-1, 1), (-1, -1)]
  const RookDirections: seq<Delta> := [(1, 0), (0, 1), (-1, 0), (0, -1)]
  const KingDirections: seq<Delta> := [(1, 1), (1, 0), (1, -1), (0, 1), (0, -1), (-1, 1), (-1, 0), (-1, -1)]

  function Abs(x: int): nat { if x < 0 then -x else x }

  function Negate(d: Delta): Delta { (-d.0, -d.1) }

  predicate Distinct(s: seq<Delta>)
  {
    forall i, j :: 0 <= i < j < |s| ==> s[i] != s[j]
  }

  predicate ClosedUnderNegation(s: seq<Delta>)
  {
    forall i :: 0 <= i < |s| ==> Negate(s[i]) in s
  }

  /** A one-square step: both components in -1..1, not both zero (the slider rays). */
  predicate UnitDirection(d: Delta)
  {
    -1 <= d.0 <= 1 && -1 <= d.1 <= 1 && d != (0, 0)
  }

  lemma KnightDirectionsFacts()
    ensures |KnightDirections| == 8 && Distinct(KnightDirections)
    ensures forall i :: 0 <= i < 8 ==>
      {Abs(KnightDirections[i].0), Abs(KnightDirections[i].1)} == {1, 2}
    ensures ClosedUnderNegation(KnightDirections)
  {
  }

  lemma BishopDirectionsFacts()
    ensures |BishopDirections| == 4 && Distinct(BishopDirections)
    ensures forall i :: 0 <= i < 4 ==> Abs(BishopDirections[i].0) == 1 && Abs(BishopDirections[i].1) == 1
    ensures ClosedUnderNegation(BishopDirections)
  {
  }

  lemma RookDirectionsFacts()
    ensures |RookDirections| == 4 && Distinct(RookDirections)
    ensures forall i :: 0 <= i < 4 ==>
      (RookDirections[i].0 == 0 && Abs(RookDirections[i].1) == 1) ||
      (RookDirections[i].1 == 0 && Abs(RookDirections[i].0) == 1)
    ensures ClosedUnderNegation(RookDirections)
  {
  }

  lemma KingDirectionsFacts()
    ensures |KingDirections| == 8 && Distinct(KingDirections)
    ensures (set d | d in KingDirections) == (set d | d in RookDirections) + (set d | d in BishopDirections)
    ensures forall d :: d in KingDirections <==> UnitDirection(d)
    ensures ClosedUnderNegation(KingDirections)
  {
  }
}
