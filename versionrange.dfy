/**
 * Capability version ranges: an inclusive interval [min, max] of positive
 * versions with some versions excluded, and the search for the highest
 * version two ranges have in common.
 */
module VersionRanges {
  import opened Wrappers

  /** The record's canonical constructor copies `exclude` with Set.copyOf, which
    * refuses null elements, so the excluded versions are plain integers. */
  datatype CapabilityVersionRange = CapabilityVersionRange(min: int, max: int, exclude: set<int>)

  /** Specification of validity: positive bounds in order, every exclusion inside them. */
  predicate Valid(r: CapabilityVersionRange) {
    1 <= r.min <= r.max && forall v :: v in r.exclude ==> r.min <= v <= r.max
  }

  /** Specification of membership: only a valid range contains anything. */
  predicate Contains(r: CapabilityVersionRange, v: int) {
    Valid(r) && r.min <= v <= r.max && v !in r.exclude
  }

  /** isValid: the bound test, then one pass over the exclusions that stops at the first stray one. */
  method IsValid(r: CapabilityVersionRange) returns (b: bool)
    ensures b <==> (1 <= r.min <= r.max && forall v :: v in r.exclude ==> r.min <= v <= r.max)
  {
    if r.min <= 0 || r.max < r.min {
      return false;
    }
    var rest := r.exclude;
    while rest != {}
      invariant rest <= r.exclude
      invariant forall v :: v in r.exclude && v !in rest ==> r.min <= v <= r.max
      decreases |rest|
    {
      ghost var w := Choose(rest);
      var v :| v in rest;
      if v < r.min || v > r.max {
        return false;
      }
      rest := rest - {v};
    }
    return true;
  }

  /** includes: validity first, then the interval and the exclusions. */
  method Includes(r: CapabilityVersionRange, v: int) returns (b: bool)
    ensures b <==> Contains(r, v)
    ensures !Valid(r) ==> !b
  {
    b := IsValid(r);
    b := b && v >= r.min && v <= r.max && v !in r.exclude;
  }

  function Max(a: int, b: int): int { if a >= b then a else b }
  function Min(a: int, b: int): int { if a <= b then a else b }

  predicate Common(a: CapabilityVersionRange, b: CapabilityVersionRange, v: int) {
    Contains(a, v) && Contains(b, v)
  }

  /** Counting down from `v` to `lo`, the first version both ranges contain. */
  function SearchDown(a: CapabilityVersionRange, b: CapabilityVersionRange, v: int, lo: int): (r: Option<int>)
    ensures r.Some? ==> lo <= r.value <= v && Common(a, b, r.value)
    ensures r.Some? ==> forall w :: r.value < w <= v ==> !Common(a, b, w)
    ensures r.None? ==> forall w :: lo <= w <= v ==> !Common(a, b, w)
    decreases v - lo + 1
  {
    if v < lo then None
    else if Common(a, b, v) then Some(v)
    else SearchDown(a, b, v - 1, lo)
  }

  /** The highest version contained in both ranges, or None when there is none. */
  function HighestCommon(a: CapabilityVersionRange, b: CapabilityVersionRange): (r: Option<int>)
    ensures r.Some? ==> Common(a, b, r.value)
    ensures r.Some? ==> forall w :: w > r.value ==> !Common(a, b, w)
    ensures r.None? <==> forall w :: !Common(a, b, w)
  {
    if !Valid(a) || !Valid(b) then None
    else
      var lo, hi := Max(a.min, b.min), Min(a.max, b.max);
      if hi < lo then None else SearchDown(a, b, hi, lo)
  }

  /** highestCommonVersion: a countdown from the smaller maximum to the larger minimum. */
  method HighestCommonVersion(a: CapabilityVersionRange, b: CapabilityVersionRange) returns (r: Option<int>)
    ensures r == HighestCommon(a, b)
  {
    var va := IsValid(a);
    var vb := IsValid(b);
    if !va || !vb {
      return None;
    }
    var commonMin := Max(a.min, b.min);
    var commonMax := Min(a.max, b.max);
    if commonMax < commonMin {
      return None;
    }
    var version := commonMax;
    while version >= commonMin
      invariant commonMin - 1 <= version <= commonMax
      invariant forall w :: version < w <= commonMax ==> !Common(a, b, w)
      decreases version - commonMin + 1
    {
      var ia := Includes(a, version);
      var ib := Includes(b, version);
      if ia && ib {
        HighestCommonUnique(a, b, Some(version));
        return Some(version);
      }
      version := version - 1;
    }
    HighestCommonUnique(a, b, None);
    return None;
  }

  /** Any answer satisfying the characterisation is the one HighestCommon gives. */
  lemma HighestCommonUnique(a: CapabilityVersionRange, b: CapabilityVersionRange, x: Option<int>)
    requires x.Some? ==> Common(a, b, x.value) && forall w :: w > x.value ==> !Common(a, b, w)
    requires x.None? ==> forall w :: !Common(a, b, w)
    ensures x == HighestCommon(a, b)
  {
    var h := HighestCommon(a, b);
    if x.Some? && h.Some? {
      assert !(h.value > x.value) && !(x.value > h.value);
    }
  }

  /** A common version lies between the larger minimum and the smaller maximum. */
  lemma HighestCommonWithinBounds(a: CapabilityVersionRange, b: CapabilityVersionRange)
    requires HighestCommon(a, b).Some?
    ensures Max(a.min, b.min) <= HighestCommon(a, b).value <= Min(a.max, b.max)
  {
  }

  /** The search answers the same whichever range asks. */
  lemma HighestCommonSymmetric(a: CapabilityVersionRange, b: CapabilityVersionRange)
    ensures HighestCommon(a, b) == HighestCommon(b, a)
  {
    var x := HighestCommon(b, a);
    assert forall w :: Common(a, b, w) <==> Common(b, a, w);
    HighestCommonUnique(a, b, x);
  }

  /** An invalid range has nothing in common with any range. */
  lemma InvalidHasNoCommonVersion(a: CapabilityVersionRange, b: CapabilityVersionRange)
    requires !Valid(a) || !Valid(b)
    ensures HighestCommon(a, b) == None
  {
  }

  /** [1,5] without 5 against [3,6] without 4: 5 and 4 are each excluded on one side, so 3. */
  lemma WorkedExample()
    ensures HighestCommon(CapabilityVersionRange(1, 5, {5}), CapabilityVersionRange(3, 6, {4})) == Some(3)
  {
    var a, b := CapabilityVersionRange(1, 5, {5}), CapabilityVersionRange(3, 6, {4});
    assert Valid(a) && Valid(b);
    assert Common(a, b, 3);
    HighestCommonUnique(a, b, Some(3));
  }
}
