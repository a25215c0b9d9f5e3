// The overlap lists of VRRootComponent.cpp: finding an overlap in a list
// (IndexOfOverlapFast), appending one only when it is not there yet
// (AddUniqueOverlapFast), TArray::RemoveAtSwap, and the comparison of the old
// and new overlap lists in UpdateOverlapsImpl, which removes the entries the
// two have in common so that what remains of the old list ends and what
// remains of the new list begins.

module Overlaps {
  import opened EngineTypes

  /**
   * FOverlapInfo, reduced to the two things FFastOverlapInfoCompare compares:
   * the other component (None once its weak pointer has gone stale) and the
   * body index within it.
   */
  datatype OverlapInfo = OverlapInfo(component: Option<ObjectId>, itemIndex: int)

  /** IndexOfOverlapFast: the first index holding the item, or INDEX_NONE (-1). */
  method IndexOfOverlapFast(overlapArray: seq<OverlapInfo>, searchItem: OverlapInfo) returns (index: int)
    ensures index == -1 <==> searchItem !in overlapArray
    ensures index != -1 ==> 0 <= index < |overlapArray| && overlapArray[index] == searchItem
                            && searchItem !in overlapArray[..index]
  {
    index := 0;
    while index < |overlapArray|
      invariant 0 <= index <= |overlapArray|
      invariant searchItem !in overlapArray[..index]
    {
      if overlapArray[index] == searchItem {
        return;
      }
      assert overlapArray[..index + 1] == overlapArray[..index] + [overlapArray[index]];
      index := index + 1;
    }
    assert overlapArray[..index] == overlapArray;
    index := -1;
  }

  /** The list after AddUniqueOverlapFast: unchanged when the item is present, else with it appended. */
  function AddedUnique(s: seq<OverlapInfo>, x: OverlapInfo): seq<OverlapInfo>
  {
    if x in s then s else s + [x]
  }

  /** AddUniqueOverlapFast keeps a list duplicate-free, holds the item afterwards, and keeps every old entry in place. */
  lemma AddedUniqueKeepsList(s: seq<OverlapInfo>, x: OverlapInfo)
    ensures NoDuplicates(s) ==> NoDuplicates(AddedUnique(s, x))
    ensures x in AddedUnique(s, x)
    ensures forall y :: y in AddedUnique(s, x) <==> y in s || y == x
    ensures AddedUnique(s, x)[..|s|] == s
    ensures |AddedUnique(s, x)| <= |s| + 1
  {
  }

  /** AddUniqueOverlapFast */
  method AddUniqueOverlapFast(overlapArray: seq<OverlapInfo>, newOverlap: OverlapInfo) returns (r: seq<OverlapInfo>)
    ensures r == AddedUnique(overlapArray, newOverlap)
  {
    r := overlapArray;
    var index := IndexOfOverlapFast(overlapArray, newOverlap);
    if index == -1 {
      r := r + [newOverlap];
    }
  }

  /** TArray::RemoveAtSwap(i, 1): the last element takes the place of the removed one. */
  function RemoveAtSwap(s: seq<OverlapInfo>, i: nat): (r: seq<OverlapInfo>)
    requires i < |s|
    ensures |r| == |s| - 1
    ensures multiset(r) + multiset{s[i]} == multiset(s)
    ensures forall k :: 0 <= k < i ==> r[k] == s[k]
    ensures forall x :: x in r ==> x in s
  {
    if i == |s| - 1 then
      assert s == s[..i] + [s[i]];
      s[..i]
    else
      var r := s[..i] + [s[|s| - 1]] + s[i + 1..|s| - 1];
      assert s == s[..i] + [s[i]] + s[i + 1..|s| - 1] + [s[|s| - 1]];
      assert multiset(r) + multiset{s[i]} == multiset(s);
      r
  }

  /** In a duplicate-free list every item occurs at most once. */
  lemma {:induction false} CountAtMostOne(s: seq<OverlapInfo>, x: OverlapInfo)
    requires NoDuplicates(s)
    ensures multiset(s)[x] <= 1
  {
    if |s| > 0 {
      var rest := s[1..];
      assert s == [s[0]] + rest;
      assert NoDuplicates(rest) by {
        forall i, j | 0 <= i < j < |rest| ensures rest[i] != rest[j] {
          assert rest[i] == s[i + 1] && rest[j] == s[j + 1];
        }
      }
      CountAtMostOne(rest, x);
      if s[0] == x {
        assert x !in rest by {
          forall k | 0 <= k < |rest| ensures rest[k] != x {
            assert rest[k] == s[k + 1];
          }
        }
      }
    }
  }

  /**
   * The comparison loop of UpdateOverlapsImpl: each old entry that is also
   * new is removed from both lists (RemoveAtSwap, then the index steps back
   * so the entry swapped in is examined too); the loop stops when the new
   * list runs out. The same entries leave both lists, and no entry is left
   * in both.
   */
  method RemoveCommonOverlaps(oldOverlaps: seq<OverlapInfo>, newOverlaps: seq<OverlapInfo>)
    returns (oldRest: seq<OverlapInfo>, newRest: seq<OverlapInfo>)
    ensures multiset(oldRest) <= multiset(oldOverlaps) && multiset(newRest) <= multiset(newOverlaps)
    ensures multiset(oldOverlaps) - multiset(oldRest) == multiset(newOverlaps) - multiset(newRest)
    ensures forall x :: x in oldRest ==> x !in newRest
    ensures NoDuplicates(oldOverlaps) ==>
              (forall x :: x in oldRest <==> x in oldOverlaps && x !in newOverlaps)
              && (forall x :: x in newOverlaps && x !in newRest ==> x in oldOverlaps && x !in oldRest)
    ensures NoDuplicates(oldOverlaps) && NoDuplicates(newOverlaps) ==>
              (forall x :: x in oldRest <==> x in oldOverlaps && x !in newOverlaps)
              && (forall x :: x in newRest <==> x in newOverlaps && x !in oldOverlaps)
  {
    oldRest, newRest := oldOverlaps, newOverlaps;
    ghost var removed: multiset<OverlapInfo> := multiset{};
    var compIdx := 0;
    while compIdx < |oldRest| && |newRest| > 0
      invariant 0 <= compIdx <= |oldRest|
      invariant multiset(oldOverlaps) == multiset(oldRest) + removed
      invariant multiset(newOverlaps) == multiset(newRest) + removed
      invariant SeenApart(oldRest, compIdx, newRest)
      decreases |oldRest| - compIdx
    {
      var searchItem := oldRest[compIdx];
      var newElementIdx := IndexOfOverlapFast(newRest, searchItem);
      if newElementIdx != -1 {
        RemovalKeepsApart(oldRest, newRest, compIdx, newElementIdx);
        RemovalMovesToRemoved(newOverlaps, newRest, newElementIdx, removed);
        RemovalMovesToRemoved(oldOverlaps, oldRest, compIdx, removed);
        newRest := RemoveAtSwap(newRest, newElementIdx);
        oldRest := RemoveAtSwap(oldRest, compIdx);
        removed := removed + multiset{searchItem};
        compIdx := compIdx - 1;
      }
      compIdx := compIdx + 1;
    }
    ApartWhenAllSeen(oldRest, newRest, compIdx);
    if NoDuplicates(oldOverlaps) {
      RemaindersWithUniqueOld(oldOverlaps, newOverlaps, oldRest, newRest, removed);
      if NoDuplicates(newOverlaps) {
        RemaindersAreDifferences(oldOverlaps, newOverlaps, oldRest, newRest, removed);
      }
    }
  }

  /** The first n entries of a occur nowhere in b. */
  ghost predicate SeenApart(a: seq<OverlapInfo>, n: nat, b: seq<OverlapInfo>)
    requires n <= |a|
  {
    forall k :: 0 <= k < n ==> a[k] !in b
  }

  /** Removing an entry at position i of a and any entry of b keeps the entries before i apart from b. */
  lemma RemovalKeepsApart(a: seq<OverlapInfo>, b: seq<OverlapInfo>, i: nat, j: nat)
    requires i < |a| && j < |b| && SeenApart(a, i, b)
    ensures SeenApart(RemoveAtSwap(a, i), i, RemoveAtSwap(b, j))
  {
    var ra, rb := RemoveAtSwap(a, i), RemoveAtSwap(b, j);
    forall k | 0 <= k < i ensures ra[k] !in rb {
      assert ra[k] == a[k];
    }
  }

  /** Removing the entry at i of s moves it, in the multiset accounting, from s to what has been removed. */
  lemma RemovalMovesToRemoved(whole: seq<OverlapInfo>, s: seq<OverlapInfo>, i: nat, removed: multiset<OverlapInfo>)
    requires i < |s| && multiset(whole) == multiset(s) + removed
    ensures multiset(whole) == multiset(RemoveAtSwap(s, i)) + (removed + multiset{s[i]})
  {
  }

  /** Once the comparison has passed every entry of a, or b is empty, nothing in a is in b. */
  lemma ApartWhenAllSeen(a: seq<OverlapInfo>, b: seq<OverlapInfo>, n: nat)
    requires n <= |a| && SeenApart(a, n, b) && (n == |a| || |b| == 0)
    ensures forall x :: x in a ==> x !in b
  {
    forall x | x in a ensures x !in b {
      var k :| 0 <= k < |a| && a[k] == x;
    }
  }

  /**
   * Removing the same entries from a duplicate-free list and another,
   * leaving nothing in common: what is left of the first is its entries not
   * in the second, and every entry taken out of the second matched one of
   * the first.
   */
  lemma RemaindersWithUniqueOld(a: seq<OverlapInfo>, b: seq<OverlapInfo>, ra: seq<OverlapInfo>, rb: seq<OverlapInfo>,
                                removed: multiset<OverlapInfo>)
    requires NoDuplicates(a)
    requires multiset(a) == multiset(ra) + removed && multiset(b) == multiset(rb) + removed
    requires forall x :: x in ra ==> x !in rb
    ensures forall x :: x in ra <==> x in a && x !in b
    ensures forall x :: x in b && x !in rb ==> x in a && x !in ra
  {
    forall x
      ensures (x in ra <==> x in a && x !in b) && (x in b && x !in rb ==> x in a && x !in ra)
    {
      CountAtMostOne(a, x);
      assert multiset(a)[x] == multiset(ra)[x] + removed[x];
      assert multiset(b)[x] == multiset(rb)[x] + removed[x];
    }
  }

  /** Removing the same entries from two duplicate-free lists, leaving nothing in common, leaves their differences. */
  lemma RemaindersAreDifferences(a: seq<OverlapInfo>, b: seq<OverlapInfo>, ra: seq<OverlapInfo>, rb: seq<OverlapInfo>,
                                 removed: multiset<OverlapInfo>)
    requires NoDuplicates(a) && NoDuplicates(b)
    requires multiset(a) == multiset(ra) + removed && multiset(b) == multiset(rb) + removed
    requires forall x :: x in ra ==> x !in rb
    ensures forall x :: x in ra <==> x in a && x !in b
    ensures forall x :: x in rb <==> x in b && x !in a
  {
    forall x
      ensures (x in ra <==> x in a && x !in b) && (x in rb <==> x in b && x !in a)
    {
      CountAtMostOne(a, x);
      CountAtMostOne(b, x);
      assert multiset(a)[x] == multiset(ra)[x] + removed[x];
      assert multiset(b)[x] == multiset(rb)[x] + removed[x];
    }
  }
}
