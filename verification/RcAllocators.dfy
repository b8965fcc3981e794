/** The reference-counting extent allocator, run alone (src/rc_allocator.c). */
module RcAllocators {
  import opened DataModel

  const AL_FREE := 0
  const AL_NO_REFS := 1
  const AL_ONE_REF := 2

  /** How many extents are not free. */
  ghost function InUse(counts: seq<int>): nat {
    if counts == [] then 0
    else InUse(counts[..|counts| - 1]) + if counts[|counts| - 1] != AL_FREE then 1 else 0
  }

  lemma {:induction false} InUseUpdate(counts: seq<int>, i: nat, c: int)
    requires i < |counts|
    ensures InUse(counts[i := c]) + (if counts[i] != AL_FREE then 1 else 0)
         == InUse(counts) + if c != AL_FREE then 1 else 0
    decreases |counts|
  {
    var n := |counts| - 1;
    if i < n {
      assert counts[i := c][..n] == counts[..n][i := c];
      InUseUpdate(counts[..n], i, c);
    } else {
      assert counts[i := c][..n] == counts[..n];
    }
  }

  class RcAllocator {
    const refCount: array<int>
    var hand: nat
    var currAllocated: int
    var maxAllocated: int

    ghost predicate Valid()
      reads this, refCount
    {
      && 0 < refCount.Length && currAllocated == InUse(refCount[..]) && currAllocated <= maxAllocated
      && forall i :: 0 <= i < refCount.Length ==> 0 <= refCount[i] < 256
    }

    constructor (capacity: nat)
      requires capacity > 0
      ensures Valid() && fresh(refCount) && refCount.Length == capacity
      ensures forall i :: 0 <= i < capacity ==> refCount[i] == AL_FREE
    {
      refCount := new int[capacity](i => AL_FREE);
      hand, currAllocated, maxAllocated := 0, 0, 0;
      new;
      NoneInUse(refCount[..]);
    }

    /** Scans from the hand for a free extent, once around at most. It fails exactly when no extent is free, and
        otherwise gives the first that was, with one reference, and leaves the hand behind it. */
    method Alloc() returns (extent: Option<nat>)
      requires Valid()
      modifies this, refCount
      ensures Valid()
      ensures extent.None? <==> forall i :: 0 <= i < refCount.Length ==> old(refCount[i]) != AL_FREE
      ensures extent.None? ==> refCount[..] == old(refCount[..]) && currAllocated == old(currAllocated)
      ensures extent.Some? ==> extent.value < refCount.Length && old(refCount[extent.value]) == AL_FREE
      ensures extent.Some? ==> refCount[..] == old(refCount[..])[extent.value := AL_ONE_REF]
      ensures extent.Some? ==> old(hand) < hand && extent.value == (hand - 1) % refCount.Length
      ensures extent.Some? ==>
        forall k :: old(hand) <= k < hand - 1 ==> old(refCount[..])[k % refCount.Length] != AL_FREE
      ensures maxAllocated == if currAllocated > old(maxAllocated) then currAllocated else old(maxAllocated)
    {
      var capacity := refCount.Length;
      ghost var counts, start := refCount[..], hand;
      var firstHand := hand % capacity;
      var h: nat := 0;
      var free, around := false, false;
      while !free && !around
        invariant start <= hand <= start + capacity && h < capacity
        invariant hand == start ==> !around
        invariant hand > start ==> h == (hand - 1) % capacity && (around <==> hand % capacity == firstHand)
        invariant !free ==> refCount[..] == counts
        invariant !free ==> forall k :: start <= k < hand ==> counts[k % capacity] != AL_FREE
        invariant free ==> hand > start && counts[h] == AL_FREE && refCount[..] == counts[h := AL_ONE_REF]
        invariant free ==> forall k :: start <= k < hand - 1 ==> counts[k % capacity] != AL_FREE
        invariant currAllocated == InUse(counts) && currAllocated <= maxAllocated == old(maxAllocated)
        decreases !free, start + capacity - hand
      {
        OnceAround(start, hand, capacity);
        h := hand % capacity;
        hand := hand + 1;
        if refCount[h] == AL_FREE {
          refCount[h] := AL_ONE_REF;
          free := true;
        }
        NextHand(hand - 1, capacity);
        around := (h + 1) % capacity == firstHand;
      }
      if !free {
        extent := None;
        OnceAround(start, hand, capacity);
        AllSeen(counts, start, hand);
        return;
      }
      InUseUpdate(counts, h, AL_ONE_REF);
      currAllocated := currAllocated + 1;
      if currAllocated > maxAllocated {
        maxAllocated := currAllocated;
      }
      extent := Some(h);
    }

    method IncRef(extent: nat) returns (ref: int)
      requires Valid() && extent < refCount.Length && AL_NO_REFS <= refCount[extent] < 255
      modifies refCount
      ensures Valid() && refCount[..] == old(refCount[..])[extent := old(refCount[extent]) + 1]
      ensures ref == refCount[extent]
    {
      InUseUpdate(refCount[..], extent, refCount[extent] + 1);
      refCount[extent] := refCount[extent] + 1;
      ref := refCount[extent];
    }

    /** Frees the extent when its count comes to zero. */
    method DecRef(extent: nat) returns (ref: int)
      requires Valid() && extent < refCount.Length && AL_FREE < refCount[extent]
      modifies this`currAllocated, refCount
      ensures Valid() && refCount[..] == old(refCount[..])[extent := old(refCount[extent]) - 1]
      ensures ref == refCount[extent]
      ensures currAllocated == old(currAllocated) - if ref == AL_FREE then 1 else 0
    {
      InUseUpdate(refCount[..], extent, refCount[extent] - 1);
      refCount[extent] := refCount[extent] - 1;
      ref := refCount[extent];
      if ref == AL_FREE {
        currAllocated := currAllocated - 1;
      }
    }
  }

  lemma {:induction false} NoneInUse(counts: seq<int>)
    requires forall i :: 0 <= i < |counts| ==> counts[i] == AL_FREE
    ensures InUse(counts) == 0
    decreases |counts|
  {
    if counts != [] {
      NoneInUse(counts[..|counts| - 1]);
    }
  }

  // ------------------------------------------------------------------ the hand

  /** The hand is back where it started exactly after a whole turn. */
  lemma OnceAround(start: nat, hand: nat, capacity: nat)
    requires 0 < capacity && start <= hand <= start + capacity
    ensures hand % capacity == start % capacity <==> hand == start || hand == start + capacity
  {
    var q, r, d := start / capacity, start % capacity, hand - start;
    assert capacity * (q + 1) == capacity * q + capacity;
    if r + d < capacity {
      ModOf(hand, capacity, q, r + d);
    } else {
      ModOf(hand, capacity, q + 1, r + d - capacity);
    }
  }

  lemma Times(n: nat, a: nat, b: nat)
    requires a <= b
    ensures n * a <= n * b
  {
  }

  lemma NextHand(hand: nat, capacity: nat)
    requires 0 < capacity
    ensures (hand % capacity + 1) % capacity == (hand + 1) % capacity
  {
    var q, r := hand / capacity, hand % capacity;
    if r + 1 < capacity {
      ModOf(hand + 1, capacity, q, r + 1);
      ModOf(r + 1, capacity, 0, r + 1);
    } else {
      assert capacity * (q + 1) == capacity * q + capacity;
      ModOf(hand + 1, capacity, q + 1, 0);
      ModOf(r + 1, capacity, 1, 0);
    }
  }

  lemma ModOf(x: nat, n: nat, q: nat, r: nat)
    requires r < n && x == n * q + r
    ensures x % n == r
  {
    var q', r' := x / n, x % n;
    assert n * q' + r' == n * q + r;
    if q' < q {
      Times(n, q' + 1, q);
    } else if q < q' {
      Times(n, q + 1, q');
    }
  }

  /** A whole turn of the hand sees every extent. */
  lemma AllSeen(counts: seq<int>, start: nat, hand: nat)
    requires 0 < |counts| && hand == start + |counts|
    requires forall k :: start <= k < hand ==> counts[k % |counts|] != AL_FREE
    ensures forall i :: 0 <= i < |counts| ==> counts[i] != AL_FREE
  {
    var n := |counts|;
    forall i | 0 <= i < n ensures counts[i] != AL_FREE {
      var q, r := start / n, start % n;
      var k := if i >= r then n * q + i else n * (q + 1) + i;
      assert n * (q + 1) == n * q + n;
      assert start <= k < hand;
      ModOf(k, n, if i >= r then q else q + 1, i);
    }
  }
}
