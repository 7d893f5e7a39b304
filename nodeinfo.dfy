/**
 * The node-level GPU ledger (NodeInfo): a node's devices keyed by index, its
 * GPU count and total GPU memory, and the read passes (availability,
 * feasibility, selection) and write paths (allocation commit, pod add and
 * remove notifications) over them. Each method runs as one atomic step, as
 * the node's read/write lock makes it.
 */
module Cache {
  import opened GoTypes
  import opened Devices
  import opened Placement
  import opened Commit

  /** The node fields the cache reads: its name, GPU count and total GPU memory. */
  datatype Node = Node(name: string, gpuCount: GoNat, gpuTotalMemory: GoNat)

  /** The capacity of each device: the node's memory divided evenly, the remainder unused. */
  function PerDeviceMemory(total: GoNat, count: GoNat): (share: u64)
    requires count > 0
    ensures share * count <= total < (share + 1) * count
  {
    total / count
  }

  /** `count` empty devices indexed 0..count-1, each with the per-device share of `total`. */
  ghost predicate FreshDevices(devs: map<int, Device>, count: GoNat, total: GoNat) {
    && WellIndexed(devs)
    && |devs| == count
    && (count > 0 ==> forall i :: i in devs ==> devs[i] == NewDevice(i, PerDeviceMemory(total, count)))
  }

  /** The device-map construction loop shared by NewNodeInfo and Reset. */
  method BuildDevices(count: GoNat, total: GoNat) returns (m: map<int, Device>)
    ensures FreshDevices(m, count, total)
  {
    m := map[];
    var i := 0;
    while i < count
      invariant 0 <= i <= count
      invariant |m| == i
      invariant forall j :: j in m <==> 0 <= j < i
      invariant forall j :: j in m ==> m[j] == NewDevice(j, PerDeviceMemory(total, count))
    {
      m := m[i := NewDevice(i, PerDeviceMemory(total, count))];
      i := i + 1;
    }
  }

  /** The device map after addOrUpdatePod: the device the annotation names, if present, records the pod. */
  function AddToAnnotated(devs: map<int, Device>, p: Pod): map<int, Device> {
    if p.gpuId >= 0 && p.gpuId in devs then devs[p.gpuId := Devices.AddPod(devs[p.gpuId], p)] else devs
  }

  /** The device map after removePod: the device the annotation names, if present, forgets the pod. */
  function RemoveFromAnnotated(devs: map<int, Device>, p: Pod): map<int, Device> {
    if p.gpuId >= 0 && p.gpuId in devs then devs[p.gpuId := Devices.RemovePod(devs[p.gpuId], p)] else devs
  }

  /**
   * Both notifications change at most the annotated device, and only its pod
   * map; a well-indexed map stays well indexed.
   */
  lemma AnnotatedChangesOneDevice(devs: map<int, Device>, p: Pod)
    ensures AddToAnnotated(devs, p).Keys == devs.Keys && RemoveFromAnnotated(devs, p).Keys == devs.Keys
    ensures forall i :: i in devs && i != p.gpuId ==>
      AddToAnnotated(devs, p)[i] == devs[i] && RemoveFromAnnotated(devs, p)[i] == devs[i]
    ensures forall i :: i in devs ==>
      && AddToAnnotated(devs, p)[i].idx == devs[i].idx
      && AddToAnnotated(devs, p)[i].totalGPUMem == devs[i].totalGPUMem
      && RemoveFromAnnotated(devs, p)[i].idx == devs[i].idx
      && RemoveFromAnnotated(devs, p)[i].totalGPUMem == devs[i].totalGPUMem
    ensures WellIndexed(devs) ==> WellIndexed(AddToAnnotated(devs, p)) && WellIndexed(RemoveFromAnnotated(devs, p))
  {
  }

  /** Delivering the same notification twice has the effect of delivering it once. */
  lemma AnnotatedIdempotent(devs: map<int, Device>, p: Pod)
    ensures AddToAnnotated(AddToAnnotated(devs, p), p) == AddToAnnotated(devs, p)
    ensures RemoveFromAnnotated(RemoveFromAnnotated(devs, p), p) == RemoveFromAnnotated(devs, p)
  {
    if p.gpuId >= 0 && p.gpuId in devs {
      AddRemoveIdempotent(devs[p.gpuId], p);
    }
  }

  /** Removing a pod the annotated device did not hold undoes adding it. */
  lemma RemoveUndoesAnnotatedAdd(devs: map<int, Device>, p: Pod)
    requires p.gpuId in devs ==> p.uid !in devs[p.gpuId].pods
    ensures RemoveFromAnnotated(AddToAnnotated(devs, p), p) == devs
  {
    if p.gpuId >= 0 && p.gpuId in devs {
      RemoveUndoesAdd(devs[p.gpuId], p);
    }
  }

  class NodeInfo {
    var name: string
    var node: Node
    var devs: map<int, Device>
    var gpuCount: GoNat
    var gpuTotalMemory: GoNat

    /** Devices are keyed 0..|devs|-1 and each carries its own key as index. */
    ghost predicate Valid()
      reads this
    {
      WellIndexed(devs)
    }

    /** NewNodeInfo: one empty device per GPU of the node. */
    constructor (node: Node)
      ensures Valid()
      ensures name == node.name && this.node == node
      ensures gpuCount == node.gpuCount && gpuTotalMemory == node.gpuTotalMemory
      ensures FreshDevices(devs, node.gpuCount, node.gpuTotalMemory)
    {
      var devMap := BuildDevices(node.gpuCount, node.gpuTotalMemory);
      name := node.name;
      this.node := node;
      devs := devMap;
      gpuCount := node.gpuCount;
      gpuTotalMemory := node.gpuTotalMemory;
    }

    /**
     * Refreshes the node snapshot and totals; the device map is rebuilt only when
     * it is empty and the node now reports GPUs, and is otherwise left as it is.
     */
    method Reset(node: Node)
      requires Valid()
      modifies this
      ensures Valid()
      ensures name == old(name) && this.node == node
      ensures gpuCount == node.gpuCount && gpuTotalMemory == node.gpuTotalMemory
      ensures old(|devs|) == 0 && node.gpuCount > 0 ==> FreshDevices(devs, node.gpuCount, node.gpuTotalMemory)
      ensures !(old(|devs|) == 0 && node.gpuCount > 0) ==> devs == old(devs)
    {
      gpuCount := node.gpuCount;
      gpuTotalMemory := node.gpuTotalMemory;
      this.node := node;
      if |devs| == 0 && gpuCount > 0 {
        devs := BuildDevices(node.gpuCount, gpuTotalMemory);
      }
    }

    function GetName(): string
      reads this
    {
      name
    }

    function GetNode(): Node
      reads this
    {
      node
    }

    function GetTotalGPUMemory(): int
      reads this
    {
      gpuTotalMemory
    }

    function GetGPUCount(): int
      reads this
    {
      gpuCount
    }

    /**
     * The devices as a slice of length gpuCount, a missing index left empty
     * (nil in Go). A device index outside 0..gpuCount-1 makes Go's slice
     * assignment panic, which the model returns as None.
     */
    method GetDevs() returns (r: Option<seq<Option<Device>>>)
      ensures r.None? <==> exists i :: i in devs && !(0 <= i < gpuCount)
      ensures Valid() ==> (r.None? <==> |devs| > gpuCount)
      ensures r.Some? ==>
        && |r.value| == gpuCount
        && forall i :: 0 <= i < gpuCount ==> r.value[i] == if i in devs then Some(devs[i]) else None
    {
      var out: seq<Option<Device>> := seq(gpuCount, _ => None);
      var pending := devs.Keys;
      while pending != {}
        invariant pending <= devs.Keys
        invariant |out| == gpuCount
        invariant forall i :: i in devs && i !in pending ==> 0 <= i < gpuCount
        invariant forall i :: 0 <= i < gpuCount ==>
          out[i] == if i in devs && i !in pending then Some(devs[i]) else None
        decreases |pending|
      {
        var i := AnyKey(pending);
        if !(0 <= i < gpuCount) {
          if Valid() {
            KeyBeyondIffOversized(devs, gpuCount);
          }
          return None;
        }
        out := out[i := Some(devs[i])];
        pending := pending - {i};
      }
      if Valid() {
        KeyBeyondIffOversized(devs, gpuCount);
      }
      return Some(out);
    }

    /** Forgets the pod on the device its annotation names, if that device exists. */
    method RemovePod(pod: Pod)
      requires Valid()
      modifies this
      ensures Valid()
      ensures name == old(name) && node == old(node)
      ensures gpuCount == old(gpuCount) && gpuTotalMemory == old(gpuTotalMemory)
      ensures devs == RemoveFromAnnotated(old(devs), pod)
    {
      var id := pod.gpuId;
      if id >= 0 {
        if id in devs {
          devs := devs[id := Devices.RemovePod(devs[id], pod)];
        }
      }
    }

    /**
     * Records the pod on the device its annotation names; reports whether such
     * a device exists.
     */
    method AddOrUpdatePod(pod: Pod) returns (added: bool)
      requires Valid()
      modifies this
      ensures Valid()
      ensures name == old(name) && node == old(node)
      ensures gpuCount == old(gpuCount) && gpuTotalMemory == old(gpuTotalMemory)
      ensures added <==> pod.gpuId >= 0 && pod.gpuId in old(devs)
      ensures devs == AddToAnnotated(old(devs), pod)
    {
      added := false;
      var id := pod.gpuId;
      if id >= 0 {
        if id in devs {
          devs := devs[id := Devices.AddPod(devs[id], pod)];
          added := true;
        }
      }
    }

    /** The capacity of every device, keyed by the device's own index. */
    method GetAllGPUs() returns (all: map<int, u64>)
      requires Valid()
      ensures all.Keys == devs.Keys
      ensures forall i :: i in all ==> all[i] == devs[i].totalGPUMem
    {
      all := map[];
      var pending := devs.Keys;
      while pending != {}
        invariant pending <= devs.Keys
        invariant all.Keys == devs.Keys - pending
        invariant forall i :: i in all ==> all[i] == devs[i].totalGPUMem
        decreases |pending|
      {
        var k := AnyKey(pending);
        var dev := devs[k];
        all := all[dev.idx := dev.totalGPUMem];
        pending := pending - {k};
      }
    }

    /** The used memory of every device, keyed by the device's own index. */
    method GetUsedGPUs() returns (used: map<int, u64>)
      requires Valid()
      ensures used.Keys == devs.Keys
      ensures forall i :: i in used ==> used[i] == Used(devs[i])
    {
      used := map[];
      var pending := devs.Keys;
      while pending != {}
        invariant pending <= devs.Keys
        invariant used.Keys == devs.Keys - pending
        invariant forall i :: i in used ==> used[i] == Used(devs[i])
        decreases |pending|
      {
        var k := AnyKey(pending);
        var dev := devs[k];
        var u := GetUsedGPUMemory(dev);
        used := used[dev.idx := u];
        pending := pending - {k};
      }
    }

    /**
     * Free memory per device (capacity minus used, as `uint`), then every
     * unhealthy index deleted.
     */
    method GetAvailableGPUs(unhealthy: set<int>) returns (avail: map<int, u64>)
      requires Valid()
      ensures avail == Available(devs, unhealthy)
    {
      var all := GetAllGPUs();
      var used := GetUsedGPUs();
      avail := map[];
      var pending := all.Keys;
      while pending != {}
        invariant pending <= all.Keys
        invariant avail.Keys == all.Keys - pending
        invariant forall i :: i in avail ==> avail[i] == SubU64(all[i], used[i])
        decreases |pending|
      {
        var id := AnyKey(pending);
        if id in used {
          avail := avail[id := SubU64(all[id], used[id])];
        }
        pending := pending - {id};
      }
      var bad := unhealthy;
      while bad != {}
        invariant bad <= unhealthy
        invariant avail.Keys == all.Keys - (unhealthy - bad)
        invariant forall i :: i in avail ==> avail[i] == SubU64(all[i], used[i])
        decreases |bad|
      {
        var id := AnyKey(bad);
        avail := avail - {id};
        bad := bad - {id};
      }
      forall i | i in avail
        ensures avail[i] == Free(devs[i])
      {
      }
      AvailableExt(devs, unhealthy, avail);
    }

    /**
     * Whether the pod fits: scans the indices upward, counting down the
     * required number (as a `uint`) at every available device with enough free
     * memory, and succeeds when it reaches zero.
     */
    method Assume(pod: Pod, unhealthy: set<int>) returns (allocatable: bool)
      requires Valid()
      ensures allocatable == AssumeHolds(devs, unhealthy, pod.gpuMem, pod.gpuCount)
    {
      allocatable := false;
      var avail := GetAvailableGPUs(unhealthy);
      var reqMem: u64 := pod.gpuMem;
      var reqCount: u64 := pod.gpuCount;
      if reqMem > 0 && reqCount == 0 {
        reqCount := 1;
      }
      ghost var need := AssumeNeed(pod.gpuMem, pod.gpuCount);
      if |avail| > 0 {
        var devID := 0;
        while devID < |devs|
          invariant 0 <= devID <= |devs|
          invariant CountFits(avail, reqMem, devID) < need
          invariant reqCount == if need - CountFits(avail, reqMem, devID) == UINT64_MODULUS then 0
                                else need - CountFits(avail, reqMem, devID)
        {
          if devID in avail {
            if avail[devID] >= reqMem {
              reqCount := SubU64(reqCount, 1);
              if reqCount == 0 {
                allocatable := true;
                CountFitsMonotone(avail, reqMem, devID + 1, |devs|);
                break;
              }
            }
          }
          devID := devID + 1;
        }
      } else {
        CountFitsZero(avail, reqMem, |devs|);
      }
    }

    /**
     * Single-device best fit: among the available devices with enough free
     * memory, the one with the least free memory, the lowest index on a tie;
     * -1 when the pod requests no memory or nothing fits.
     */
    method AllocateGPUID(pod: Pod, unhealthy: set<int>) returns (candidateDevID: int, found: bool)
      requires Valid()
      ensures pod.gpuMem == 0 ==> candidateDevID == -1 && !found
      ensures pod.gpuMem > 0 ==>
        (found <==> exists j :: 0 <= j < |devs| && Fits(Available(devs, unhealthy), j, pod.gpuMem))
      ensures found ==> IsBestFit(Available(devs, unhealthy), |devs|, pod.gpuMem, candidateDevID)
      ensures !found ==> candidateDevID == -1
    {
      var reqGPU: u64 := 0;
      found := false;
      candidateDevID := -1;
      var candidateGPUMemory: u64 := 0;
      var avail := GetAvailableGPUs(unhealthy);
      reqGPU := pod.gpuMem;
      if reqGPU > 0 {
        if |avail| > 0 {
          var devID := 0;
          while devID < |devs|
            invariant 0 <= devID <= |devs|
            invariant found <==> exists j :: 0 <= j < devID && Fits(avail, j, reqGPU)
            invariant !found ==> candidateDevID == -1
            invariant found ==> IsBestFit(avail, devID, reqGPU, candidateDevID)
            invariant found ==> candidateGPUMemory == avail[candidateDevID]
          {
            if devID in avail {
              var availableGPU := avail[devID];
              if availableGPU >= reqGPU {
                assert Fits(avail, devID, reqGPU);
                if candidateDevID == -1 || candidateGPUMemory > availableGPU {
                  candidateDevID := devID;
                  candidateGPUMemory := availableGPU;
                }
                found := true;
              }
            }
            devID := devID + 1;
          }
        }
      }
    }

    /**
     * Multi-device first fit: every available index gets an entry, 1 for the
     * lowest-indexed devices with enough free memory until the required count
     * is reached, 0 for the others; found when the count is reached.
     */
    method AllocateGPUIDs(pod: Pod, unhealthy: set<int>) returns (candidateDevIDs: map<int, int>, found: bool)
      requires Valid()
      ensures Selection(candidateDevIDs, found) == SelectDevices(devs, unhealthy, pod.gpuMem, pod.gpuCount)
    {
      var reqGPUMem: u64 := 0;
      var reqGPUCount: nat := 0;
      found := false;
      var foundGPUCount := 0;
      candidateDevIDs := map[];
      var avail := GetAvailableGPUs(unhealthy);
      reqGPUMem := pod.gpuMem;
      reqGPUCount := pod.gpuCount;
      if reqGPUMem > 0 {
        if reqGPUCount == 0 {
          reqGPUCount := 1;
        }
        if |avail| > 0 {
          var devID := 0;
          while devID < |devs|
            invariant 0 <= devID <= |devs|
            invariant candidateDevIDs == FirstFit(avail, devID, reqGPUMem, reqGPUCount)
            invariant foundGPUCount == Min(CountFits(avail, reqGPUMem, devID), reqGPUCount)
          {
            FirstFitStep(avail, devID, reqGPUMem, reqGPUCount);
            if devID in avail {
              if avail[devID] >= reqGPUMem && foundGPUCount < reqGPUCount {
                candidateDevIDs := candidateDevIDs[devID := 1];
                foundGPUCount := foundGPUCount + 1;
              } else {
                candidateDevIDs := candidateDevIDs[devID := 0];
              }
            }
            devID := devID + 1;
          }
        } else {
          CountFitsZero(avail, reqGPUMem, |devs|);
          assert FirstFit(avail, |devs|, reqGPUMem, reqGPUCount).Keys == {};
        }
        FirstFitCount(avail, |devs|, reqGPUMem, reqGPUCount, |devs|);
        if foundGPUCount == reqGPUCount {
          found := true;
        }
        assert reqGPUCount == RequiredCount(pod.gpuCount);
      }
    }

    /**
     * Allocate: select devices; without a selection nothing is called and
     * nothing changes, otherwise the selection is committed.
     */
    method Allocate(pod: Pod, unhealthy: set<int>, replies: Replies) returns (err: AllocResult, calls: seq<ApiCall>)
      requires Valid()
      modifies this
      ensures Valid()
      ensures name == old(name) && node == old(node)
      ensures gpuCount == old(gpuCount) && gpuTotalMemory == old(gpuTotalMemory)
      ensures var s := SelectDevices(old(devs), unhealthy, pod.gpuMem, pod.gpuCount);
        var c := CommitSequence(s.found, old(gpuCount), replies);
        && err == c.result && calls == c.calls
        && devs == if c.added.Some? then AddToFlagged(old(devs), s.flags, c.added.value) else old(devs)
    {
      var devIds, found := AllocateGPUIDs(pod, unhealthy);
      if !found {
        return Failure(Unplaceable), [];
      }
      err, calls := CommitSelection(devIds, replies);
    }

    /**
     * The commit of a selection: patch the pod's annotation (re-fetching and
     * re-patching once on the optimistic-lock conflict), bind it, and only then
     * record the pod the last patch returned on every flagged device. Any failure
     * returns at once, with no device changed.
     */
    method CommitSelection(devIds: map<int, int>, replies: Replies) returns (err: AllocResult, calls: seq<ApiCall>)
      requires Valid()
      modifies this
      ensures Valid()
      ensures name == old(name) && node == old(node)
      ensures gpuCount == old(gpuCount) && gpuTotalMemory == old(gpuTotalMemory)
      ensures var c := CommitSequence(true, old(gpuCount), replies);
        && err == c.result && calls == c.calls
        && devs == if c.added.Some? then AddToFlagged(old(devs), devIds, c.added.value) else old(devs)
    {
      calls := [];
      if GetGPUCount() == 0 {
        return Failure(DivideByZero), calls;
      }
      if replies.payloadErr.Some? {
        return Failure(PayloadFailed(replies.payloadErr.value)), calls;
      }
      var newPod: Pod;
      calls := calls + [PatchCall];
      match replies.patch {
        case Fetched(p) =>
          newPod := p;
        case Failed(m) =>
          if m == OptimisticLockErrorMsg {
            calls := calls + [GetCall];
            if replies.refetch.Failed? {
              return Failure(ApiFailed(replies.refetch.msg)), calls;
            }
            calls := calls + [PatchCall];
            match replies.repatch {
              case Failed(m3) =>
                return Failure(ApiFailed(m3)), calls;
              case Fetched(p) =>
                newPod := p;
            }
          } else {
            return Failure(ApiFailed(m)), calls;
          }
      }
      calls := calls + [BindCall];
      if replies.bind.BindFailed? {
        return Failure(ApiFailed(replies.bind.msg)), calls;
      }
      var updated := devs;
      var pending := devIds.Keys;
      while pending != {}
        invariant pending <= devIds.Keys
        invariant updated.Keys == devs.Keys
        invariant forall i :: i in devs ==>
          updated[i] == if i in devIds && devIds[i] != 0 && i !in pending then Devices.AddPod(devs[i], newPod) else devs[i]
        modifies {}
        decreases |pending|
      {
        var devId := AnyKey(pending);
        if devIds[devId] != 0 {
          if devId in updated {
            updated := updated[devId := Devices.AddPod(updated[devId], newPod)];
          }
        }
        pending := pending - {devId};
      }
      AddToFlaggedExt(devs, devIds, newPod, updated);
      AddToFlaggedWellIndexed(devs, devIds, newPod);
      devs := updated;
      err := Success;
    }
  }
}
