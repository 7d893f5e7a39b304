/**
 * Worked examples on a node with two GPUs of 16 units each: the feasibility
 * test, the two selections and the commit sequence on concrete requests.
 */
module Scenarios {
  import opened GoTypes
  import opened Devices
  import opened Placement
  import opened Commit

  /** Two empty devices of 16 units each. */
  function TwoGPUs(): (devs: map<int, Device>)
    ensures WellIndexed(devs) && |devs| == 2
  {
    var devs := map[0 := NewDevice(0, 16), 1 := NewDevice(1, 16)];
    assert devs.Keys == {0, 1};
    devs
  }

  lemma EmptyDevicesFree()
    ensures Available(TwoGPUs(), {}) == map[0 := 16, 1 := 16]
  {
    assert Sum(map[]) == 0;
    var a := Available(TwoGPUs(), {});
    assert a.Keys == {0, 1};
  }

  /** A one-GPU request of 10 units fits and takes device 0 only. */
  lemma SingleGPURequest()
    ensures AssumeHolds(TwoGPUs(), {}, 10, 1)
    ensures SelectDevices(TwoGPUs(), {}, 10, 1) == Selection(map[0 := 1, 1 := 0], true)
  {
    EmptyDevicesFree();
    var avail := Available(TwoGPUs(), {});
    assert CountFits(avail, 10, 1) == 1;
    assert CountFits(avail, 10, 2) == 2;
    var flags := FirstFit(avail, 2, 10, 1);
    assert flags.Keys == {0, 1};
    assert flags == map[0 := 1, 1 := 0];
    assert FlaggedCount(flags, 2) == 1;
  }

  /** Committing that selection charges device 0 with the pod and leaves device 1 as it was. */
  lemma SingleGPUCommit(r: Replies)
    requires r.payloadErr.None? && r.patch.Fetched? && r.bind == Bound
    requires r.patch.pod.uid == "a" && r.patch.pod.gpuMem == 10
    ensures CommitSequence(true, 2, r) == Outcome(Success, [PatchCall, BindCall], Some(r.patch.pod))
    ensures Sum(AddToFlagged(TwoGPUs(), map[0 := 1, 1 := 0], r.patch.pod)[0].pods) == 10
    ensures AddToFlagged(TwoGPUs(), map[0 := 1, 1 := 0], r.patch.pod)[1] == TwoGPUs()[1]
  {
    assert Sum(map[]) == 0;
    FlaggedDeviceGainsShare(TwoGPUs(), map[0 := 1, 1 := 0], r.patch.pod, 0);
  }

  /** A request larger than any device fits nowhere and is refused before any API call. */
  lemma OversizedRequest(r: Replies)
    ensures !AssumeHolds(TwoGPUs(), {}, 20, 1)
    ensures !SelectDevices(TwoGPUs(), {}, 20, 1).found
    ensures CommitSequence(SelectDevices(TwoGPUs(), {}, 20, 1).found, 2, r) == Outcome(Failure(Unplaceable), [], None)
  {
    EmptyDevicesFree();
    AssumeAgreesWithSelection(TwoGPUs(), {}, 20, 1);
    assert CountFits(Available(TwoGPUs(), {}), 20, 2) == 0;
  }

  /** A two-GPU request of 10 units each takes both devices. */
  lemma TwoGPURequest()
    ensures AssumeHolds(TwoGPUs(), {}, 10, 2)
    ensures SelectDevices(TwoGPUs(), {}, 10, 2) == Selection(map[0 := 1, 1 := 1], true)
  {
    EmptyDevicesFree();
    var avail := Available(TwoGPUs(), {});
    assert CountFits(avail, 10, 1) == 1;
    assert CountFits(avail, 10, 2) == 2;
    var flags := FirstFit(avail, 2, 10, 2);
    assert flags.Keys == {0, 1};
    assert flags == map[0 := 1, 1 := 1];
    assert FlaggedCount(flags, 2) == 2;
  }

  /** Committing that selection charges both devices with 10 units. */
  lemma TwoGPUCommit(r: Replies)
    requires r.payloadErr.None? && r.patch.Fetched? && r.bind == Bound
    requires r.patch.pod.uid == "b" && r.patch.pod.gpuMem == 10
    ensures CommitSequence(true, 2, r) == Outcome(Success, [PatchCall, BindCall], Some(r.patch.pod))
    ensures var after := AddToFlagged(TwoGPUs(), map[0 := 1, 1 := 1], r.patch.pod);
      Used(after[0]) == 10 && Used(after[1]) == 10
  {
    assert Sum(map[]) == 0;
    FlaggedDeviceGainsShare(TwoGPUs(), map[0 := 1, 1 := 1], r.patch.pod, 0);
    FlaggedDeviceGainsShare(TwoGPUs(), map[0 := 1, 1 := 1], r.patch.pod, 1);
  }

  /** With 10 units used on device 0 and device 1 unhealthy, a 10-unit request no longer fits. */
  lemma BusyAndUnhealthy(p: Pod)
    requires p.uid == "x" && p.gpuMem == 10
    ensures var devs := TwoGPUs()[0 := AddPod(TwoGPUs()[0], p)];
      && Free(devs[0]) == 6
      && !AssumeHolds(devs, {1}, 10, 1)
      && !SelectDevices(devs, {1}, 10, 1).found
  {
    var d0 := AddPod(TwoGPUs()[0], p);
    AddPodRaisesSum(TwoGPUs()[0], p);
    assert Sum(map[]) == 0;
    assert Free(d0) == 6;
    var devs := TwoGPUs()[0 := d0];
    assert devs.Keys == {0, 1};
    var avail := Available(devs, {1});
    assert avail == map[0 := 6] by { assert avail.Keys == {0}; }
    assert CountFits(avail, 10, 2) == 0;
    AssumeAgreesWithSelection(devs, {1}, 10, 1);
  }

  /**
   * A patch that reports the conflict is followed by a re-fetch and a second
   * patch; the bind then records the pod the second patch returned.
   */
  lemma ConflictThenSuccess(first: Pod, second: Pod)
    ensures var r := Replies(None, Failed(OptimisticLockErrorMsg), Fetched(first), Fetched(second), Bound);
      CommitSequence(true, 2, r) == Outcome(Success, [PatchCall, GetCall, PatchCall, BindCall], Some(second))
  {
  }

  /**
   * A device whose recorded pods exceed its capacity shows almost 2^64 units
   * free, since free memory is a `uint` subtraction; so it admits any request.
   */
  lemma OvercommittedDeviceLooksFree(p: Pod)
    requires p.uid == "y" && p.gpuMem == 20
    ensures Free(AddPod(NewDevice(0, 16), p)) == UINT64_MODULUS - 4
    ensures AssumeHolds(map[0 := AddPod(NewDevice(0, 16), p)], {}, 1000, 1)
  {
    var d := AddPod(NewDevice(0, 16), p);
    AddPodRaisesSum(NewDevice(0, 16), p);
    assert Sum(map[]) == 0;
    assert Used(d) == 20;
    assert Free(d) == SubU64(16, 20);
    var devs := map[0 := d];
    assert |devs| == 1 by { assert devs.Keys == {0}; }
    var avail := Available(devs, {});
    assert avail == map[0 := Free(d)] by { assert avail.Keys == {0}; }
    assert CountFits(avail, 1000, 1) == 1;
  }
}
