/**
 * Sequence helpers shared by the move generators: the concatenation of the
 * per-delta (or per-piece) lists, and the order-keeping selection that the
 * legality filters perform.
 */
module Seqs {
  import opened Wrappers

  /** The lists of `parts` one after the other. */
  function Concat<T>(parts: seq<seq<T>>): seq<T>
    decreases |parts|
  {
    if |parts| == 0 then [] else Concat(parts[..|parts| - 1]) + parts[|parts| - 1]
  }

  /** An element is in the concatenation exactly when it is in one of the parts. */
  lemma {:induction false} ConcatMember<T>(parts: seq<seq<T>>, x: T)
    ensures x in Concat(parts) <==> exists t :: 0 <= t < |parts| && x in parts[t]
    decreases |parts|
  {
    if |parts| > 0 {
      var n := |parts| - 1;
      ConcatMember(parts[..n], x);
      if exists t :: 0 <= t < |parts| && x in parts[t] {
        var t :| 0 <= t < |parts| && x in parts[t];
        if t < n {
          assert parts[..n][t] == parts[t];
        }
      }
    }
  }

  lemma ConcatOneMore<T>(parts: seq<seq<T>>, t: nat)
    requires t < |parts|
    ensures Concat(parts[..t + 1]) == Concat(parts[..t]) + parts[t]
  {
    assert parts[..t + 1][..t] == parts[..t];
  }

  /** Parts of at most `k` elements each concatenate to at most `k` elements per part. */
  lemma {:induction false} ConcatLength<T>(parts: seq<seq<T>>, k: nat)
    requires forall t :: 0 <= t < |parts| ==> |parts[t]| <= k
    ensures |Concat(parts)| <= |parts| * k
    decreases |parts|
  {
    if |parts| > 0 {
      ConcatLength(parts[..|parts| - 1], k);
    }
  }

  /** The elements whose verdict is Some(true), in order, or None when some verdict is None. */
  function Select<T>(xs: seq<T>, verdicts: seq<Option<bool>>): Option<seq<T>>
    requires |verdicts| == |xs|
  {
    if |xs| == 0 then Some([])
    else
      var n := |xs| - 1;
      match Select(xs[..n], verdicts[..n])
      case None => None
      case Some(kept) =>
        match verdicts[n]
        case None => None
        case Some(keep) => Some(if keep then kept + [xs[n]] else kept)
  }

  /** Once one verdict is None, so is the selection of every longer prefix. */
  lemma {:induction false} SelectFailsFrom<T>(xs: seq<T>, verdicts: seq<Option<bool>>, i: nat, j: nat)
    requires |verdicts| == |xs| && i < j <= |xs| && verdicts[i].None?
    ensures Select(xs[..j], verdicts[..j]) == None
    decreases j
  {
    assert xs[..j][..j - 1] == xs[..j - 1];
    assert verdicts[..j][..j - 1] == verdicts[..j - 1];
    if i < j - 1 {
      SelectFailsFrom(xs, verdicts, i, j - 1);
    } else {
      assert verdicts[..j][j - 1] == verdicts[i];
    }
  }

  /** One more element: the selection of the longer prefix extends the shorter one. */
  lemma SelectOneMore<T>(xs: seq<T>, verdicts: seq<Option<bool>>, i: nat, kept: seq<T>)
    requires |verdicts| == |xs| && i < |xs| && Select(xs[..i], verdicts[..i]) == Some(kept)
    ensures verdicts[i] == Some(true) ==> Select(xs[..i + 1], verdicts[..i + 1]) == Some(kept + [xs[i]])
    ensures verdicts[i] == Some(false) ==> Select(xs[..i + 1], verdicts[..i + 1]) == Some(kept)
  {
    assert xs[..i + 1][..i] == xs[..i];
    assert verdicts[..i + 1][..i] == verdicts[..i];
  }

  /** The selection succeeds exactly when no verdict is None. */
  lemma {:induction false} SelectDefined<T>(xs: seq<T>, verdicts: seq<Option<bool>>)
    requires |verdicts| == |xs|
    ensures Select(xs, verdicts).Some? <==> forall i :: 0 <= i < |verdicts| ==> verdicts[i].Some?
    decreases |xs|
  {
    if |xs| > 0 {
      var n := |xs| - 1;
      SelectDefined(xs[..n], verdicts[..n]);
      assert forall i :: 0 <= i < n ==> verdicts[..n][i] == verdicts[i];
    }
  }

  /** The selection holds exactly the elements whose verdict is Some(true). */
  lemma {:induction false} SelectIff<T>(xs: seq<T>, verdicts: seq<Option<bool>>, x: T)
    requires |verdicts| == |xs| && Select(xs, verdicts).Some?
    ensures x in Select(xs, verdicts).value <==> exists i :: 0 <= i < |xs| && xs[i] == x && verdicts[i] == Some(true)
    decreases |xs|
  {
    if |xs| > 0 {
      var n := |xs| - 1;
      SelectIff(xs[..n], verdicts[..n], x);
      if x in Select(xs[..n], verdicts[..n]).value {
        var i :| 0 <= i < n && xs[..n][i] == x && verdicts[..n][i] == Some(true);
        assert xs[i] == x && verdicts[i] == Some(true);
      }
      if exists i :: 0 <= i < |xs| && xs[i] == x && verdicts[i] == Some(true) {
        var i :| 0 <= i < |xs| && xs[i] == x && verdicts[i] == Some(true);
        if i < n {
          assert xs[..n][i] == x && verdicts[..n][i] == Some(true);
        }
      }
    }
  }

  /** An element whose verdict is Some(true) is selected. */
  lemma SelectKeeps<T>(xs: seq<T>, verdicts: seq<Option<bool>>, i: nat)
    requires |verdicts| == |xs| && Select(xs, verdicts).Some? && i < |xs| && verdicts[i] == Some(true)
    ensures xs[i] in Select(xs, verdicts).value
  {
    SelectIff(xs, verdicts, xs[i]);
  }
}
