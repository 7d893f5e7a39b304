/**
 * What the placement passes of a node compute: the free memory of every healthy
 * device, the feasibility test, the multi-device first-fit selection and the
 * single-device best-fit selection, each as a definition over the device map,
 * with the properties that relate them.
 */
module Placement {
  import opened GoTypes
  import opened Devices

  /** Free memory per device index, with the unhealthy indices removed. */
  ghost function Available(devs: map<int, Device>, unhealthy: set<int>): map<int, u64> {
    map i | i in devs && i !in unhealthy :: Free(devs[i])
  }

  /** The free-memory map has an entry for exactly the healthy devices, each that device's free memory. */
  lemma AvailableShape(devs: map<int, Device>, unhealthy: set<int>)
    ensures Available(devs, unhealthy).Keys == devs.Keys - unhealthy
    ensures forall i :: i in Available(devs, unhealthy) ==> Available(devs, unhealthy)[i] == Free(devs[i])
  {
  }

  /** A map with the same keys and the same free-memory values is the free-memory map. */
  lemma AvailableExt(devs: map<int, Device>, unhealthy: set<int>, m: map<int, u64>)
    requires m.Keys == devs.Keys - unhealthy
    requires forall i :: i in m ==> m[i] == Free(devs[i])
    ensures m == Available(devs, unhealthy)
  {
    var a := Available(devs, unhealthy);
    assert m.Keys == a.Keys;
    forall i | i in m
      ensures m[i] == a[i]
    {
    }
  }

  /** Device `i` is available and has at least `mem` free. */
  predicate Fits(avail: map<int, u64>, i: int, mem: u64) {
    i in avail && avail[i] >= mem
  }

  /** The number of indices in 0..k-1 that fit. */
  function CountFits(avail: map<int, u64>, mem: u64, k: nat): (c: nat)
    ensures c <= k
  {
    if k == 0 then 0
    else CountFits(avail, mem, k - 1) + (if Fits(avail, k - 1, mem) then 1 else 0)
  }

  lemma {:induction false} CountFitsMonotone(avail: map<int, u64>, mem: u64, j: nat, k: nat)
    requires j <= k
    ensures CountFits(avail, mem, j) <= CountFits(avail, mem, k)
    decreases k
  {
    if j < k {
      CountFitsMonotone(avail, mem, j, k - 1);
    }
  }

  /** Nothing fits below `k` exactly when none of the indices below `k` fits. */
  lemma {:induction false} CountFitsZero(avail: map<int, u64>, mem: u64, k: nat)
    ensures CountFits(avail, mem, k) == 0 <==> forall i :: 0 <= i < k ==> !Fits(avail, i, mem)
  {
    if k > 0 {
      CountFitsZero(avail, mem, k - 1);
    }
  }

  /**
   * The number of fitting devices Assume needs: the count, defaulting to 1 when
   * memory is requested; with neither memory nor count the `uint` counter
   * wraps to 2^64 - 1 at the first decrement, so 2^64 fitting devices would be needed.
   */
  function AssumeNeed(mem: GoNat, count: GoNat): nat {
    if mem > 0 && count == 0 then 1
    else if count == 0 then UINT64_MODULUS
    else count
  }

  /** Assume's verdict on a device map. */
  ghost predicate AssumeHolds(devs: map<int, Device>, unhealthy: set<int>, mem: GoNat, count: GoNat) {
    CountFits(Available(devs, unhealthy), mem, |devs|) >= AssumeNeed(mem, count)
  }

  /** The number of devices the multi-device selection must flag. */
  function RequiredCount(count: GoNat): nat {
    if count == 0 then 1 else count
  }

  /**
   * First fit over indices 0..n-1: every available index gets an entry, 1 when
   * it fits and fewer than `need` fitting devices come before it, 0 otherwise.
   */
  function FirstFit(avail: map<int, u64>, n: nat, mem: u64, need: nat): map<int, int> {
    map i | 0 <= i < n && i in avail ::
      if Fits(avail, i, mem) && CountFits(avail, mem, i) < need then 1 else 0
  }

  /** First fit over one more index adds that index's entry, if it is available, and changes nothing else. */
  lemma FirstFitStep(avail: map<int, u64>, n: nat, mem: u64, need: nat)
    ensures FirstFit(avail, n + 1, mem, need) ==
      if n in avail
      then FirstFit(avail, n, mem, need)[n := if Fits(avail, n, mem) && CountFits(avail, mem, n) < need then 1 else 0]
      else FirstFit(avail, n, mem, need)
  {
    var after := FirstFit(avail, n + 1, mem, need);
    var before := FirstFit(avail, n, mem, need);
    if n in avail {
      assert after.Keys == before.Keys + {n};
    } else {
      assert after.Keys == before.Keys;
    }
  }

  /** The number of indices in 0..k-1 flagged 1. */
  function FlaggedCount(flags: map<int, int>, k: nat): (c: nat)
    ensures c <= k
  {
    if k == 0 then 0
    else FlaggedCount(flags, k - 1) + (if k - 1 in flags && flags[k - 1] == 1 then 1 else 0)
  }

  /** The decision map of the multi-device selection and whether it succeeded. */
  datatype Selection = Selection(flags: map<int, int>, found: bool)

  /**
   * The multi-device selection: nothing for a request without memory; otherwise
   * first fit over the device range, successful when the flagged count reaches
   * the required count.
   */
  ghost function SelectDevices(devs: map<int, Device>, unhealthy: set<int>, mem: GoNat, count: GoNat): Selection {
    SelectFrom(Available(devs, unhealthy), |devs|, mem, count)
  }

  /** The multi-device selection over the free-memory map of `n` devices. */
  function SelectFrom(avail: map<int, u64>, n: nat, mem: GoNat, count: GoNat): Selection {
    if mem == 0 then Selection(map[], false)
    else
      var flags := FirstFit(avail, n, mem, RequiredCount(count));
      Selection(flags, FlaggedCount(flags, n) == RequiredCount(count))
  }

  /** First fit flags as many devices as fit, up to the need. */
  lemma {:induction false} FirstFitCount(avail: map<int, u64>, n: nat, mem: u64, need: nat, k: nat)
    requires k <= n
    ensures FlaggedCount(FirstFit(avail, n, mem, need), k) == Min(CountFits(avail, mem, k), need)
  {
    if k > 0 {
      FirstFitCount(avail, n, mem, need, k - 1);
    }
  }

  /** The flagged devices are the lowest-indexed fitting ones: a fitting device below a flagged one is flagged too. */
  lemma FirstFitIsLowest(avail: map<int, u64>, n: nat, mem: u64, need: nat, i: int, j: int)
    requires i in FirstFit(avail, n, mem, need) && FirstFit(avail, n, mem, need)[i] == 1
    requires 0 <= j < i && Fits(avail, j, mem)
    ensures j in FirstFit(avail, n, mem, need) && FirstFit(avail, n, mem, need)[j] == 1
  {
    CountFitsMonotone(avail, mem, j, i);
  }

  /**
   * The multi-device selection's shape: entries exactly for the available
   * in-range indices, values 0 or 1, flagged devices fit, at most the required
   * number are flagged, and `found` holds exactly when enough devices fit.
   */
  lemma SelectionBounds(devs: map<int, Device>, unhealthy: set<int>, mem: GoNat, count: GoNat)
    ensures var s := SelectDevices(devs, unhealthy, mem, count);
      var avail := Available(devs, unhealthy);
      && (mem == 0 ==> s.flags == map[] && !s.found)
      && (mem > 0 ==>
            && (forall i :: i in s.flags <==> 0 <= i < |devs| && i in devs && i !in unhealthy)
            && (forall i :: i in s.flags ==> s.flags[i] == 0 || s.flags[i] == 1)
            && (forall i :: i in s.flags && s.flags[i] == 1 ==> Fits(avail, i, mem))
            && FlaggedCount(s.flags, |devs|) <= RequiredCount(count)
            && (s.found <==> CountFits(avail, mem, |devs|) >= RequiredCount(count)))
  {
    if mem > 0 {
      FirstFitCount(Available(devs, unhealthy), |devs|, mem, RequiredCount(count), |devs|);
    }
  }

  /** On the same state, a request with memory is feasible exactly when the selection finds devices. */
  lemma AssumeAgreesWithSelection(devs: map<int, Device>, unhealthy: set<int>, mem: GoNat, count: GoNat)
    requires mem > 0
    ensures AssumeHolds(devs, unhealthy, mem, count) <==> SelectDevices(devs, unhealthy, mem, count).found
  {
    FirstFitCount(Available(devs, unhealthy), |devs|, mem, RequiredCount(count), |devs|);
  }

  /** A request for neither memory nor devices is never feasible on a node Go can represent. */
  lemma AssumeRejectsEmptyRequest(devs: map<int, Device>, unhealthy: set<int>)
    requires |devs| < UINT64_MODULUS
    ensures !AssumeHolds(devs, unhealthy, 0, 0)
  {
  }

  /** Assume fails on a node whose devices are all unhealthy. */
  lemma AssumeFailsWithoutAvailable(devs: map<int, Device>, unhealthy: set<int>, mem: GoNat, count: GoNat)
    requires devs.Keys <= unhealthy
    ensures !AssumeHolds(devs, unhealthy, mem, count)
  {
    CountFitsZero(Available(devs, unhealthy), mem, |devs|);
  }

  /**
   * Best fit among indices 0..n-1: `id` fits, no fitting device has less free
   * memory, and every fitting device before it has strictly more.
   */
  ghost predicate IsBestFit(avail: map<int, u64>, n: nat, mem: u64, id: int) {
    && 0 <= id < n && Fits(avail, id, mem)
    && (forall j :: 0 <= j < n && Fits(avail, j, mem) ==> avail[id] <= avail[j])
    && (forall j :: 0 <= j < id && Fits(avail, j, mem) ==> avail[id] < avail[j])
  }

  /** At most one index is the best fit, so the single-device selection is determined. */
  lemma BestFitUnique(avail: map<int, u64>, n: nat, mem: u64, a: int, b: int)
    requires IsBestFit(avail, n, mem, a) && IsBestFit(avail, n, mem, b)
    ensures a == b
  {
  }
}
