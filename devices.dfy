/**
 * The per-GPU ledger (DeviceInfo): a device index, a fixed capacity and the pods
 * assigned to the device, each with the GPU memory it declared. Used memory is the
 * sum of those declarations, computed on demand.
 */
module Devices {
  import opened GoTypes

  type PodId = string

  /**
   * The values the cache reads off a pod: its identity, the GPU memory and GPU
   * count it requests, and the device index of its placement annotation
   * (negative when the pod carries none).
   */
  datatype Pod = Pod(uid: PodId, gpuMem: GoNat, gpuCount: GoNat, gpuId: int)

  datatype Device = Device(idx: int, totalGPUMem: u64, pods: map<PodId, u64>)

  /** A device with no pods on it. */
  function NewDevice(idx: int, totalGPUMem: u64): Device {
    Device(idx, totalGPUMem, map[])
  }

  /** Records (or overwrites) the pod's memory share on the device. */
  function AddPod(d: Device, p: Pod): Device {
    d.(pods := d.pods[p.uid := p.gpuMem])
  }

  /** Forgets the pod; a pod that is not there is ignored. */
  function RemovePod(d: Device, p: Pod): Device {
    d.(pods := d.pods - {p.uid})
  }

  /** The sum of the memory shares in `m`, as an unbounded number. */
  ghost function Sum(m: map<PodId, u64>): nat
    decreases |m|
  {
    if m == map[] then 0
    else
      var k :| k in m;
      assert |m - {k}| == |m| - 1 by { assert (m - {k}).Keys == m.Keys - {k}; }
      m[k] + Sum(m - {k})
  }

  /** Used memory as Go's `uint` accumulation computes it: the sum modulo 2^64. */
  ghost function Used(d: Device): u64 {
    Sum(d.pods) % UINT64_MODULUS
  }

  /** Free memory: capacity minus used, as a `uint` subtraction. */
  ghost function Free(d: Device): u64 {
    SubU64(d.totalGPUMem, Used(d))
  }

  /**
   * The device map of a node is well indexed when its keys are exactly
   * 0..|devs|-1 and each device carries its own key as index.
   */
  predicate WellIndexed(devs: map<int, Device>) {
    && (forall i :: i in devs ==> 0 <= i < |devs| && devs[i].idx == i)
    && (forall i :: 0 <= i < |devs| ==> i in devs)
  }

  /** Any key of the map can be taken out first: the sum does not depend on order. */
  lemma {:induction false} SumRemove(m: map<PodId, u64>, k: PodId)
    requires k in m
    ensures Sum(m) == m[k] + Sum(m - {k})
    decreases |m|
  {
    var j :| j in m && Sum(m) == m[j] + Sum(m - {j});
    if j != k {
      assert (m - {j}).Keys == m.Keys - {j};
      assert (m - {k}).Keys == m.Keys - {k};
      SumRemove(m - {j}, k);
      SumRemove(m - {k}, j);
      assert m - {j} - {k} == m - {k} - {j};
    }
  }

  /** Adding a pod that was not on the device raises the sum by exactly its share. */
  lemma AddPodRaisesSum(d: Device, p: Pod)
    requires p.uid !in d.pods
    ensures Sum(AddPod(d, p).pods) == Sum(d.pods) + p.gpuMem
  {
    var m := AddPod(d, p).pods;
    SumRemove(m, p.uid);
    assert m - {p.uid} == d.pods;
  }

  /** Re-adding a pod that is already recorded only replaces its share. */
  lemma AddPodReplacesShare(d: Device, p: Pod)
    requires p.uid in d.pods
    ensures Sum(AddPod(d, p).pods) == Sum(d.pods) - d.pods[p.uid] + p.gpuMem
  {
    var m := AddPod(d, p).pods;
    SumRemove(m, p.uid);
    SumRemove(d.pods, p.uid);
    assert m - {p.uid} == d.pods - {p.uid};
  }

  /** Removing a recorded pod lowers the sum by exactly its share. */
  lemma RemovePodLowersSum(d: Device, p: Pod)
    requires p.uid in d.pods
    ensures Sum(RemovePod(d, p).pods) + d.pods[p.uid] == Sum(d.pods)
  {
    SumRemove(d.pods, p.uid);
  }

  /** Add and remove never touch the index and capacity; both are idempotent. */
  lemma AddRemoveIdempotent(d: Device, p: Pod)
    ensures AddPod(d, p).idx == d.idx && AddPod(d, p).totalGPUMem == d.totalGPUMem
    ensures RemovePod(d, p).idx == d.idx && RemovePod(d, p).totalGPUMem == d.totalGPUMem
    ensures AddPod(AddPod(d, p), p) == AddPod(d, p)
    ensures RemovePod(RemovePod(d, p), p) == RemovePod(d, p)
  {
  }

  /** Removing undoes adding: a pod that was absent leaves no trace. */
  lemma RemoveUndoesAdd(d: Device, p: Pod)
    requires p.uid !in d.pods
    ensures RemovePod(AddPod(d, p), p) == d
  {
    assert AddPod(d, p).pods - {p.uid} == d.pods;
  }

  /** While the device is not over-committed, free memory is plain capacity minus sum. */
  lemma FreeWithinCapacity(d: Device)
    requires Sum(d.pods) <= d.totalGPUMem
    ensures Free(d) == d.totalGPUMem - Sum(d.pods)
    ensures Free(d) + Sum(d.pods) == d.totalGPUMem
  {
  }

  /**
   * For a well-indexed map, some key lies at or beyond `c` exactly when the map
   * holds more than `c` devices.
   */
  lemma KeyBeyondIffOversized(devs: map<int, Device>, c: nat)
    requires WellIndexed(devs)
    ensures (exists i :: i in devs && !(0 <= i < c)) <==> |devs| > c
  {
    if |devs| > c {
      assert |devs| - 1 in devs;
    }
  }

  /** A total split into a `uint` remainder and whole wraps determines the remainder. */
  lemma WrapRemainder(t: nat, used: u64, wraps: nat)
    requires t == used + wraps * 0x1_0000_0000_0000_0000
    ensures used == t % UINT64_MODULUS
  {
  }

  /** The device's used memory, summed over its pods with `uint` wrap-around. */
  method GetUsedGPUMemory(d: Device) returns (used: u64)
    ensures used == Used(d)
  {
    var pods := d.pods;
    var rest := pods;
    used := 0;
    ghost var total: nat := 0;
    ghost var wraps: nat := 0;
    while rest != map[]
      invariant total + Sum(rest) == Sum(pods)
      invariant total == used + wraps * 0x1_0000_0000_0000_0000
      decreases |rest|
    {
      var k :| k in rest;
      var share := rest[k];
      SumRemove(rest, k);
      if used + share >= UINT64_MODULUS {
        wraps := wraps + 1;
      }
      used := AddU64(used, share);
      total := total + share;
      assert |rest - {k}| == |rest| - 1 by { assert (rest - {k}).Keys == rest.Keys - {k}; }
      rest := rest - {k};
    }
    assert total == Sum(pods);
    WrapRemainder(Sum(pods), used, wraps);
  }
}
