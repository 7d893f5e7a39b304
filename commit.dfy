/**
 * The commit sequence of an allocation: build the annotation patch, patch the
 * pod (re-fetching and re-patching once on the optimistic-lock conflict), bind
 * it to the node, and only then record it on every selected device. The
 * Kubernetes calls are replaced by the replies they would give.
 */
module Commit {
  import opened GoTypes
  import opened Devices

  /** The message of the API server's optimistic-lock conflict. */
  const OptimisticLockErrorMsg: string :=
    "the object has been modified; please apply your changes to the latest version and try again"

  /** The reply of a pod Patch or Get: the pod returned, or the error's message. */
  datatype PodReply = Fetched(pod: Pod) | Failed(msg: string)

  datatype BindReply = Bound | BindFailed(msg: string)

  /**
   * The replies the outside world gives to one allocation, in the order the
   * commit may ask for them; a reply that is not asked for is never looked at.
   * `payloadErr` is the error, if any, of building the annotation patch.
   */
  datatype Replies = Replies(
    payloadErr: Option<string>,
    patch: PodReply,
    refetch: PodReply,
    repatch: PodReply,
    bind: BindReply)

  datatype ApiCall = PatchCall | GetCall | BindCall

  datatype AllocError =
    | Unplaceable            // the selection found no placement
    | DivideByZero           // the per-device share divides by a GPU count of 0 (a Go run-time panic)
    | PayloadFailed(msg: string)
    | ApiFailed(msg: string) // the error of Patch, Get or Bind, returned as it is

  datatype AllocResult = Success | Failure(err: AllocError)

  /** What one commit does: its result, the API calls it issues, and the pod it records, if any. */
  datatype Outcome = Outcome(result: AllocResult, calls: seq<ApiCall>, added: Option<Pod>)

  function BindStep(calls: seq<ApiCall>, pod: Pod, bind: BindReply): Outcome {
    match bind
    case Bound => Outcome(Success, calls + [BindCall], Some(pod))
    case BindFailed(m) => Outcome(Failure(ApiFailed(m)), calls + [BindCall], None)
  }

  /**
   * The commit policy: without a selection nothing is called; a patch that
   * fails with the conflict message is retried exactly once after a re-fetch;
   * any other failure ends the commit; the pod the last patch returned is
   * recorded only once the bind succeeds.
   */
  function CommitSequence(found: bool, gpuCount: int, r: Replies): Outcome {
    if !found then Outcome(Failure(Unplaceable), [], None)
    else if gpuCount == 0 then Outcome(Failure(DivideByZero), [], None)
    else if r.payloadErr.Some? then Outcome(Failure(PayloadFailed(r.payloadErr.value)), [], None)
    else
      match r.patch
      case Fetched(p) => BindStep([PatchCall], p, r.bind)
      case Failed(m) =>
        if m != OptimisticLockErrorMsg then Outcome(Failure(ApiFailed(m)), [PatchCall], None)
        else
          match r.refetch
          case Failed(m2) => Outcome(Failure(ApiFailed(m2)), [PatchCall, GetCall], None)
          case Fetched(_) =>
            match r.repatch
            case Failed(m3) => Outcome(Failure(ApiFailed(m3)), [PatchCall, GetCall, PatchCall], None)
            case Fetched(p) => BindStep([PatchCall, GetCall, PatchCall], p, r.bind)
  }

  /** The device map after recording `p` on every device flagged non-zero. */
  function AddToFlagged(devs: map<int, Device>, flags: map<int, int>, p: Pod): map<int, Device> {
    map i | i in devs :: if i in flags && flags[i] != 0 then AddPod(devs[i], p) else devs[i]
  }

  /**
   * At most one retry: the calls are a prefix of Patch, Bind or of Patch, Get,
   * Patch, Bind, and the re-fetch happens exactly when the first patch reported
   * the conflict.
   */
  lemma RetryAtMostOnce(found: bool, gpuCount: int, r: Replies)
    ensures var c := CommitSequence(found, gpuCount, r);
      && (c.calls <= [PatchCall, BindCall] || c.calls <= [PatchCall, GetCall, PatchCall, BindCall])
      && (GetCall in c.calls <==>
            found && gpuCount != 0 && r.payloadErr.None? && r.patch == Failed(OptimisticLockErrorMsg))
  {
  }

  /**
   * State changes only after bind succeeds: a pod is recorded exactly when the
   * commit succeeds, and then the last call was the bind, preceded by a patch
   * that returned that pod.
   */
  lemma RecordOnlyAfterBind(found: bool, gpuCount: int, r: Replies)
    ensures var c := CommitSequence(found, gpuCount, r);
      && (c.added.Some? <==> c.result == Success)
      && (c.result == Success ==>
            && r.bind == Bound && |c.calls| >= 2
            && c.calls[|c.calls| - 1] == BindCall && c.calls[|c.calls| - 2] == PatchCall
            && ((r.patch.Fetched? && c.added == Some(r.patch.pod)) ||
                (r.patch == Failed(OptimisticLockErrorMsg) && r.repatch.Fetched? && c.added == Some(r.repatch.pod))))
  {
  }

  /** Every failure before the patch makes no call at all; a bind is only attempted after a successful patch. */
  lemma NoCallsBeforeSelection(found: bool, gpuCount: int, r: Replies)
    ensures var c := CommitSequence(found, gpuCount, r);
      && (!found ==> c == Outcome(Failure(Unplaceable), [], None))
      && (BindCall in c.calls ==>
            r.patch.Fetched? || (r.patch == Failed(OptimisticLockErrorMsg) && r.refetch.Fetched? && r.repatch.Fetched?))
  {
  }

  /** Only the flagged devices change, each by recording the pod; the device indices stay the same. */
  lemma OnlyFlaggedDevicesChange(devs: map<int, Device>, flags: map<int, int>, p: Pod)
    ensures var after := AddToFlagged(devs, flags, p);
      && after.Keys == devs.Keys
      && (forall i :: i in devs && (i !in flags || flags[i] == 0) ==> after[i] == devs[i])
      && (forall i :: i in devs && i in flags && flags[i] != 0 ==> after[i] == AddPod(devs[i], p))
  {
  }

  /** A flagged device that did not hold the pod gains exactly its memory share. */
  lemma FlaggedDeviceGainsShare(devs: map<int, Device>, flags: map<int, int>, p: Pod, i: int)
    requires i in devs && i in flags && flags[i] != 0 && p.uid !in devs[i].pods
    ensures Sum(AddToFlagged(devs, flags, p)[i].pods) == Sum(devs[i].pods) + p.gpuMem
  {
    AddPodRaisesSum(devs[i], p);
  }

  /**
   * The effect of a commit on the devices, when the patches hand back the
   * requested pod (an annotation-only patch keeps its uid and GPU request):
   * a failed commit changes nothing; a successful one raises the used memory
   * of every flagged device by the request (replacing the pod's earlier
   * share, if the device held one) and leaves every other device as it was.
   */
  lemma CommitChargesRequest(devs: map<int, Device>, flags: map<int, int>, pod: Pod, found: bool, gpuCount: int, r: Replies)
    requires r.patch.Fetched? ==> r.patch.pod.uid == pod.uid && r.patch.pod.gpuMem == pod.gpuMem
    requires r.repatch.Fetched? ==> r.repatch.pod.uid == pod.uid && r.repatch.pod.gpuMem == pod.gpuMem
    ensures var c := CommitSequence(found, gpuCount, r);
      var after := if c.added.Some? then AddToFlagged(devs, flags, c.added.value) else devs;
      && after.Keys == devs.Keys
      && (c.result != Success ==> after == devs)
      && (forall i :: i in devs && (i !in flags || flags[i] == 0) ==> after[i] == devs[i])
      && (c.result == Success ==> forall i :: i in devs && i in flags && flags[i] != 0 ==>
            && after[i].idx == devs[i].idx && after[i].totalGPUMem == devs[i].totalGPUMem
            && Sum(after[i].pods) ==
                 Sum(devs[i].pods) + pod.gpuMem - (if pod.uid in devs[i].pods then devs[i].pods[pod.uid] as int else 0))
  {
    var c := CommitSequence(found, gpuCount, r);
    RecordOnlyAfterBind(found, gpuCount, r);
    if c.added.Some? {
      var q := c.added.value;
      assert q.uid == pod.uid && q.gpuMem == pod.gpuMem;
      OnlyFlaggedDevicesChange(devs, flags, q);
      forall i | i in devs && i in flags && flags[i] != 0
        ensures Sum(AddToFlagged(devs, flags, q)[i].pods) ==
          Sum(devs[i].pods) + pod.gpuMem - (if pod.uid in devs[i].pods then devs[i].pods[pod.uid] as int else 0)
      {
        if pod.uid in devs[i].pods {
          AddPodReplacesShare(devs[i], q);
        } else {
          AddPodRaisesSum(devs[i], q);
        }
      }
    }
  }

  /** A map that agrees with the recording on every key is the recording. */
  lemma AddToFlaggedExt(devs: map<int, Device>, flags: map<int, int>, p: Pod, m: map<int, Device>)
    requires m.Keys == devs.Keys
    requires forall i :: i in devs ==> m[i] == if i in flags && flags[i] != 0 then AddPod(devs[i], p) else devs[i]
    ensures m == AddToFlagged(devs, flags, p)
  {
    var a := AddToFlagged(devs, flags, p);
    assert m.Keys == a.Keys;
    forall i | i in m
      ensures m[i] == a[i]
    {
    }
  }

  /** Recording keeps a well-indexed device map well indexed. */
  lemma AddToFlaggedWellIndexed(devs: map<int, Device>, flags: map<int, int>, p: Pod)
    requires WellIndexed(devs)
    ensures WellIndexed(AddToFlagged(devs, flags, p))
  {
    var after := AddToFlagged(devs, flags, p);
    assert after.Keys == devs.Keys;
  }
}
