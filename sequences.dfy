/** Generic facts about lists that the projectile and particle passes share:
    `Array.prototype.filter`, order-preserving deletion and index embeddings. */
module Sequences {

  /** `sub` is `s` with some elements deleted and the rest in their original order. */
  predicate IsSubsequence<T(==)>(sub: seq<T>, s: seq<T>)
    decreases |s|
  {
    if sub == [] then true
    else if s == [] then false
    else if sub[0] == s[0] then IsSubsequence(sub[1..], s[1..])
    else IsSubsequence(sub, s[1..])
  }

  /** No element occurs twice (for a list of objects: no two entries alias). */
  predicate Distinct<T(==)>(s: seq<T>) {
    forall i, j :: 0 <= i < j < |s| ==> s[i] != s[j]
  }

  /** `idx` lists, in strictly increasing order, the positions of `s` whose elements make up `sub`. */
  ghost predicate Picks<T>(sub: seq<T>, s: seq<T>, idx: seq<nat>) {
    && |idx| == |sub|
    && (forall j :: 0 <= j < |idx| ==> idx[j] < |s| && sub[j] == s[idx[j]])
    && (forall j1, j2 :: 0 <= j1 < j2 < |idx| ==> idx[j1] < idx[j2])
  }

  /** The elements of `s` that satisfy `keep`, as `s.filter(keep)` returns them. */
  function Filter<T(==)>(keep: T -> bool, s: seq<T>): (r: seq<T>)
    ensures |r| <= |s|
    ensures forall k :: 0 <= k < |r| ==> r[k] in s && keep(r[k])
    ensures forall k :: 0 <= k < |s| && keep(s[k]) ==> s[k] in r
    ensures (exists k :: 0 <= k < |s| && !keep(s[k])) ==> |r| < |s|
  {
    if s == [] then []
    else
      var rest := Filter(keep, s[1..]);
      assert forall k :: 1 <= k < |s| ==> s[k] == s[1..][k - 1];
      if keep(s[0]) then [s[0]] + rest else rest
  }

  /** Filtering keeps every copy of a value that passes and no copy of one that fails. */
  lemma {:induction false} FilterCounts<T>(keep: T -> bool, s: seq<T>)
    ensures forall x :: multiset(Filter(keep, s))[x] == if keep(x) then multiset(s)[x] else 0
  {
    if s != [] {
      var rest := Filter(keep, s[1..]);
      FilterCounts(keep, s[1..]);
      assert s == [s[0]] + s[1..];
      assert multiset(s) == multiset{s[0]} + multiset(s[1..]);
      if keep(s[0]) {
        assert multiset(Filter(keep, s)) == multiset{s[0]} + multiset(rest);
      }
    }
  }

  /** Filtering keeps the survivors in their original order. */
  lemma {:induction false} FilterKeepsOrder<T>(keep: T -> bool, s: seq<T>)
    ensures IsSubsequence(Filter(keep, s), s)
  {
    if s != [] {
      FilterKeepsOrder(keep, s[1..]);
      var rest := Filter(keep, s[1..]);
      if keep(s[0]) {
        assert Filter(keep, s) == [s[0]] + rest;
        assert ([s[0]] + rest)[1..] == rest;
      } else {
        assert Filter(keep, s) == rest;
        SubsequenceOfTail(rest, s);
      }
    }
  }

  /** A subsequence of the tail is a subsequence of the whole list. */
  lemma {:induction false} SubsequenceOfTail<T>(sub: seq<T>, s: seq<T>)
    requires s != [] && IsSubsequence(sub, s[1..])
    ensures IsSubsequence(sub, s)
    decreases |s|, 0
  {
    if sub != [] && sub[0] == s[0] {
      // IsSubsequence(sub, s[1..]) implies IsSubsequence(sub[1..], s[1..])
      DropHead(sub, s[1..]);
    }
  }

  /** Deleting the first element of a subsequence leaves a subsequence. */
  lemma {:induction false} DropHead<T>(sub: seq<T>, s: seq<T>)
    requires sub != [] && IsSubsequence(sub, s)
    ensures IsSubsequence(sub[1..], s)
    decreases |s|, 1
  {
    assert s != [];
    if sub[0] == s[0] {
      if sub[1..] != [] {
        SubsequenceOfTail(sub[1..], s);
      }
    } else {
      DropHead(sub, s[1..]);
      SubsequenceOfTail(sub[1..], s);
    }
  }

  /** An index embedding witnesses a subsequence. */
  lemma {:induction false} PicksIsSubsequence<T>(sub: seq<T>, s: seq<T>, idx: seq<nat>)
    requires Picks(sub, s, idx)
    ensures IsSubsequence(sub, s)
    decreases |s|
  {
    if sub != [] {
      assert idx[0] < |s|;
      var tail := s[1..];
      if sub[0] == s[0] {
        var rest := idx[1..];
        assert forall j :: 0 <= j < |rest| ==> rest[j] > idx[0] >= 0;
        var shifted: seq<nat> := seq(|rest|, j requires 0 <= j < |rest| => rest[j] - 1);
        assert Picks(sub[1..], tail, shifted);
        PicksIsSubsequence(sub[1..], tail, shifted);
      } else {
        assert idx[0] != 0;
        assert forall j :: 0 <= j < |idx| ==> idx[j] >= idx[0] > 0;
        var shifted: seq<nat> := seq(|idx|, j requires 0 <= j < |idx| => idx[j] - 1);
        assert Picks(sub, tail, shifted);
        PicksIsSubsequence(sub, tail, shifted);
      }
    }
  }

  /** Picking one more element, past every position picked so far, extends the embedding. */
  lemma PicksAppend<T>(sub: seq<T>, s: seq<T>, idx: seq<nat>, i: nat)
    requires Picks(sub, s, idx) && i < |s|
    requires forall j :: 0 <= j < |idx| ==> idx[j] < i
    ensures Picks(sub + [s[i]], s, idx + [i])
  {
  }

  /** Picking from a list without repeats yields a list without repeats. */
  lemma PicksDistinct<T>(sub: seq<T>, s: seq<T>, idx: seq<nat>)
    requires Picks(sub, s, idx) && Distinct(s)
    ensures Distinct(sub)
  {
  }
}
