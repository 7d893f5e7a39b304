# GPU-share node ledger, modelled in Dafny

This project models the node-level GPU-memory ledger of the gpushare
scheduler extender (`pkg/cache/nodeinfo.go`). A `NodeInfo` holds one device
per GPU of a Kubernetes node. Each device has a fixed capacity (the node's
GPU memory divided evenly by its GPU count) and records the pods placed on it
with the GPU memory each one declared. Over this map the node answers four
questions and performs three updates:

- the free memory of every healthy device (`getAvailableGPUs`, built from
  `getAllGPUs` and `getUsedGPUs`, minus the unhealthy indices listed in a
  config map);
- whether a pod fits (`Assume`): count down the requested number of GPUs over
  the device indices in ascending order;
- which devices a pod gets: best fit on one device (`allocateGPUID`) or first
  fit on several devices (`allocateGPUIDs`), the latter answering with a 0/1
  flag per available device;
- the commit (`Allocate`): select, patch the pod's annotation (one re-fetch and
  re-patch on the API server's optimistic-lock conflict), bind, and only then
  record the pod on every flagged device;
- the notifications `addOrUpdatePod` and `removePod`, which follow the pod's
  device-index annotation, and the constructor and `Reset`, which build the
  device map.

Modules, in dependency order:

| file | module | contents |
|---|---|---|
| `gotypes.dfy` | `GoTypes` | Go's `uint` as `u64` with wrapping add and subtract, non-negative `int` as `GoNat`, `Option`, a key chooser for map iteration |
| `devices.dfy` | `Devices` | `Pod`, `Device` (index, capacity, pod → memory map), add/remove, used and free memory, the used-memory loop |
| `unhealthy.dfy` | `Unhealthy` | `strings.Split` and its inverse, `strconv.Atoi`, the unhealthy-index parse and its loop |
| `placement.dfy` | `Placement` | what the read passes compute: free-memory map, feasibility, first-fit and best-fit selections, and their relations |
| `commit.dfy` | `Commit` | the commit sequence over the replies of Patch, Get and Bind, and the recording on flagged devices |
| `nodeinfo.dfy` | `Cache` | the `NodeInfo` class with every method of the file, each proved against the definitions above |
| `scenarios.dfy` | `Scenarios` | worked examples on a node with two GPUs of 16 units |

Representation choices:

- Go `uint` values are `u64`; the sum of a device's pod memory wraps modulo
  2^64 and free memory is the wrapping subtraction `total - used`, as in Go. A
  device whose pods exceed its capacity therefore shows close to 2^64 units
  free (`Scenarios.OvercommittedDeviceLooksFree`).
- In `Assume` the count is a `uint`: with neither memory nor count requested,
  the first decrement wraps to 2^64 - 1, so the test could only succeed on a
  node with 2^64 GPUs. The model writes this as a required count of 2^64
  (`Placement.AssumeNeed`), and `Placement.AssumeRejectsEmptyRequest` shows
  that it always fails.
- The share `GetTotalGPUMemory()/GetGPUCount()` in `Allocate` is a Go division
  by zero, which panics, when the node's GPU count has been reset to 0 while
  the selection still found devices. The model returns `DivideByZero` for
  that panic instead of requiring it away.
- `GetDevs` writes each device into a slice of length `gpuCount` at its key. A
  key outside that range makes Go panic, and the model returns `None`. On a
  well-indexed map this happens exactly when there are more devices than
  `gpuCount`.
- An unhealthy-list entry that `strconv.Atoi` rejects still contributes the
  value `Atoi` returns with its error: 0 for a syntax error and the nearest
  `int` bound for an out-of-range number. The program inserts that value
  regardless of the error, so `""`, `"x"` or `" 3"` mark device 0 unhealthy
  (`Unhealthy.MalformedEntryMarksDeviceZero`).
- Go iterates over maps in an unspecified order. The loops that do so choose
  any remaining key, with `GoTypes.AnyKey`, and their results are proved
  independent of that order.

## Model

| member | source | states |
|---|---|---|
| GoTypes.AddU64 | pkg/cache/nodeinfo.go:389 | the `uint` addition behind used memory: the plain sum below 2^64, the sum less 2^64 otherwise |
| GoTypes.SubU64 | pkg/cache/nodeinfo.go:372 | the `uint` subtraction `total - used`: adding `used` back gives `total`, and it is the plain difference when `used <= total` |
| Devices.GetUsedGPUMemory | pkg/cache/nodeinfo.go:389 | summing a device's pod memory with `uint` additions, in any order, yields the exact sum modulo 2^64 |
| Devices.SumRemove | pkg/cache/nodeinfo.go:389 | the sum of pod memory does not depend on the order in which pods are taken |
| Devices.AddPodRaisesSum | pkg/cache/nodeinfo.go:137 | recording a pod the device did not hold raises the device's sum by exactly the pod's memory |
| Devices.AddPodReplacesShare | pkg/cache/nodeinfo.go:137 | recording a pod the device already holds replaces its old share by the new one |
| Devices.RemovePodLowersSum | pkg/cache/nodeinfo.go:115 | removing a recorded pod lowers the sum by exactly its share |
| Devices.AddRemoveIdempotent | pkg/cache/nodeinfo.go:105-144 | add and remove keep a device's index and capacity, and doing either twice equals doing it once |
| Devices.RemoveUndoesAdd | pkg/cache/nodeinfo.go:105-144 | removing a pod right after adding it to a device that did not hold it restores the device |
| Devices.FreeWithinCapacity | pkg/cache/nodeinfo.go:372 | while the pods fit in the capacity, free memory is capacity minus the sum, and the two add up to the capacity |
| Devices.KeyBeyondIffOversized | pkg/cache/nodeinfo.go:85-91 | in a well-indexed device map some key lies outside 0..c-1 exactly when there are more than c devices |
| Unhealthy.Split | pkg/cache/nodeinfo.go:417 | splitting on commas always yields at least one piece |
| Unhealthy.JoinSplit | pkg/cache/nodeinfo.go:417 | joining the pieces of a split with commas gives back the original text |
| Unhealthy.SplitPiecesCommaFree | pkg/cache/nodeinfo.go:417 | no piece of a split contains a comma |
| Unhealthy.SplitJoin | pkg/cache/nodeinfo.go:417 | splitting a comma-join of comma-free pieces gives back the pieces |
| Unhealthy.AtoiItoa | pkg/cache/nodeinfo.go:419 | `Atoi` reads back the decimal form of every non-negative `int` without error |
| Unhealthy.UnhealthyIdsFromEntries | pkg/cache/nodeinfo.go:417-424 | every unhealthy index is what some listed entry parses to, and lies in the `int` range |
| Unhealthy.UnhealthyIdsRoundTrip | pkg/cache/nodeinfo.go:417-424 | parsing a comma-joined list of decimal indices yields exactly those indices |
| Unhealthy.EmptyListMarksDeviceZero | pkg/cache/nodeinfo.go:417-423 | an empty `gpus` entry marks exactly device 0 unhealthy |
| Unhealthy.MalformedEntryMarksDeviceZero | pkg/cache/nodeinfo.go:419-423 | an entry starting with neither a sign nor a digit parses to 0 with an error, so index 0 is in the unhealthy set, next to the index of every other entry |
| Unhealthy.MalformedEntryExample | pkg/cache/nodeinfo.go:417-423 | `"1,x"` marks exactly devices 0 and 1 |
| Unhealthy.SpacedEntryMarksDeviceZero | pkg/cache/nodeinfo.go:417-423 | entries are not trimmed, so `"2, 3"` marks devices 0 and 2, not 3 |
| Unhealthy.GetUnhealthyGPUs | pkg/cache/nodeinfo.go:406-429 | the parse loop computes the set of parsed entries, and no entry means no unhealthy device |
| Placement.AvailableShape | pkg/cache/nodeinfo.go:365-383 | the free-memory map has an entry for exactly the devices that are not unhealthy, each holding that device's capacity minus used |
| Placement.CountFitsZero | pkg/cache/nodeinfo.go:164-170 | no device below k fits exactly when none of the indices below k is available with enough free memory |
| Placement.FirstFitCount | pkg/cache/nodeinfo.go:330-346 | first fit flags as many devices as fit, but never more than the required count |
| Placement.FirstFitIsLowest | pkg/cache/nodeinfo.go:330-346 | a fitting device below a flagged device is itself flagged: first fit takes the lowest-indexed fitting devices |
| Placement.SelectionBounds | pkg/cache/nodeinfo.go:312-363 | no memory requested gives an empty map and no success; otherwise exactly the available indices in range get an entry, each 0 or 1, flagged ones fit, at most the required count is flagged, and success holds exactly when enough devices fit |
| Placement.AssumeAgreesWithSelection | pkg/cache/nodeinfo.go:157-177 | for a request with memory, the feasibility test holds exactly when the multi-device selection succeeds on the same state |
| Placement.AssumeRejectsEmptyRequest | pkg/cache/nodeinfo.go:155-170 | a request of neither memory nor GPUs is never feasible, since the `uint` count wraps |
| Placement.AssumeFailsWithoutAvailable | pkg/cache/nodeinfo.go:164 | when every device is unhealthy no request is feasible |
| Placement.BestFitUnique | pkg/cache/nodeinfo.go:279-288 | at most one index is the best fit, so the single-device choice is determined |
| Commit.RetryAtMostOnce | pkg/cache/nodeinfo.go:198-218 | the calls are a prefix of Patch, Bind or of Patch, Get, Patch, Bind, and the re-fetch happens exactly when the first patch reported the conflict |
| Commit.RecordOnlyAfterBind | pkg/cache/nodeinfo.go:222-259 | a pod is recorded exactly when the commit succeeds; then the bind succeeded as the last call, after a patch that returned that pod |
| Commit.NoCallsBeforeSelection | pkg/cache/nodeinfo.go:189-239 | without a selection nothing is called and nothing recorded; a bind is attempted only after a successful patch |
| Commit.OnlyFlaggedDevicesChange | pkg/cache/nodeinfo.go:248-258 | recording keeps the device indices, leaves every device flagged 0 or unflagged unchanged, and adds the pod to each flagged device |
| Commit.FlaggedDeviceGainsShare | pkg/cache/nodeinfo.go:248-258 | a flagged device that did not hold the pod gains exactly its memory |
| Commit.CommitChargesRequest | pkg/cache/nodeinfo.go:189-259 | when the patches return the requested pod (same uid and GPU request), a failed commit changes no device; a successful one raises each flagged device's used memory by the request, less the pod's earlier share there if any, keeps its index and capacity, and leaves every other device unchanged |
| Commit.AddToFlaggedWellIndexed | pkg/cache/nodeinfo.go:248-258 | recording keeps a well-indexed device map well indexed |
| Cache.PerDeviceMemory | pkg/cache/nodeinfo.go:38-40 | each device's capacity is the integer quotient: count times it is at most the total, and count times one more exceeds it |
| Cache.BuildDevices | pkg/cache/nodeinfo.go:38-40 | the construction loop yields count empty devices, keyed and indexed 0..count-1, each with the per-device share |
| Cache.NodeInfo.constructor | pkg/cache/nodeinfo.go:34-56 | a new node copies name, node, GPU count and total memory, and holds a fresh device map for them |
| Cache.NodeInfo.Reset | pkg/cache/nodeinfo.go:59-79 | count, total memory and node are always replaced and the name kept; the devices are rebuilt only when the map was empty and the new count is positive, and are untouched otherwise |
| Cache.NodeInfo.GetDevs | pkg/cache/nodeinfo.go:85-91 | the slice has gpuCount slots, each holding the device of that index or nothing; a key outside the slice is the Go panic, which on a well-indexed map happens exactly when there are more devices than gpuCount |
| Cache.NodeInfo.RemovePod | pkg/cache/nodeinfo.go:105-120 | only the annotated device forgets the pod, and nothing changes when the annotation is negative or names no device |
| Cache.NodeInfo.AddOrUpdatePod | pkg/cache/nodeinfo.go:123-144 | reports success exactly when the annotation is non-negative and names a device, and then only that device records the pod |
| Cache.AnnotatedChangesOneDevice | pkg/cache/nodeinfo.go:105-144 | both notifications leave the indices, capacities and every other device unchanged and keep the map well indexed |
| Cache.AnnotatedIdempotent | pkg/cache/nodeinfo.go:105-144 | delivering the same add or remove notification twice has the effect of delivering it once |
| Cache.RemoveUndoesAnnotatedAdd | pkg/cache/nodeinfo.go:105-144 | removing a pod after adding it, when its device did not hold it, restores the device map |
| Cache.NodeInfo.GetAllGPUs | pkg/cache/nodeinfo.go:396-403 | one entry per device, holding its capacity |
| Cache.NodeInfo.GetUsedGPUs | pkg/cache/nodeinfo.go:386-393 | one entry per device, holding its used memory |
| Cache.NodeInfo.GetAvailableGPUs | pkg/cache/nodeinfo.go:365-383 | the two-pass build equals the free-memory map of the healthy devices |
| Cache.NodeInfo.Assume | pkg/cache/nodeinfo.go:147-181 | the `uint` count-down loop returns true exactly when at least the effective count of devices in range is available with enough free memory, and changes nothing |
| Cache.NodeInfo.AllocateGPUID | pkg/cache/nodeinfo.go:265-308 | with no memory requested, or when nothing fits, it answers -1 and not found; otherwise it finds a device exactly when one fits, and the device is the best fit with ties to the lowest index |
| Cache.NodeInfo.AllocateGPUIDs | pkg/cache/nodeinfo.go:312-363 | the loop's flag map and verdict are exactly the first-fit selection on the current state |
| Cache.NodeInfo.Allocate | pkg/cache/nodeinfo.go:183-262 | result and calls follow the commit policy for the selection on the state before the call; devices change only on success, by recording the last patched pod on the flagged devices |
| Cache.NodeInfo.CommitSelection | pkg/cache/nodeinfo.go:193-259 | after a selection: the zero-count panic, payload, patch with one retry and bind, and the recording on flagged devices only after the bind succeeds |
| Scenarios.EmptyDevicesFree | pkg/cache/nodeinfo.go:365-383 | two empty devices of 16 units show 16 units free each |
| Scenarios.SingleGPURequest | pkg/cache/nodeinfo.go:312-363 | a one-GPU request of 10 on two empty devices fits and takes device 0 only |
| Scenarios.SingleGPUCommit | pkg/cache/nodeinfo.go:222-259 | committing that selection with a successful patch and bind charges device 0 with 10 and leaves device 1 |
| Scenarios.OversizedRequest | pkg/cache/nodeinfo.go:147-181 | a request larger than any device is infeasible, unselected, and refused with no API call |
| Scenarios.TwoGPURequest | pkg/cache/nodeinfo.go:312-363 | a two-GPU request of 10 takes both devices |
| Scenarios.TwoGPUCommit | pkg/cache/nodeinfo.go:222-259 | committing that selection with a successful patch and bind leaves 10 units used on each device |
| Scenarios.BusyAndUnhealthy | pkg/cache/nodeinfo.go:365-383 | with 10 units used on device 0 and device 1 unhealthy, a request of 10 no longer fits |
| Scenarios.ConflictThenSuccess | pkg/cache/nodeinfo.go:198-218 | a conflict, a re-fetch and a second patch lead to the bind recording the second patch's pod |
| Scenarios.OvercommittedDeviceLooksFree | pkg/cache/nodeinfo.go:372 | a device holding 20 units on a capacity of 16 shows 2^64 - 4 units free and admits a one-GPU request of 1000 |

## Left out

- Kubernetes API calls: Patch, Get and Bind (pkg/cache/nodeinfo.go:198, 204, 211, 235) are network I/O. Their answers are an input (`Commit.Replies`), and the `v1.Binding` object is not built.
- `utils.PatchPodAnnotationSpec` is not part of this model: only whether it fails is an input, and the payload's content is not modelled.
- Locking: the node's read/write mutex is concurrency control; each method is treated as one atomic step.
- The config-map lookup `getConfigMap` (pkg/cache/nodeinfo.go:410) is an external store. The `gpus` entry, or its absence, is an input to `Unhealthy.GetUnhealthyGPUs`, and the other methods take the resulting unhealthy set as a parameter.
- The `utils` helpers that read a node's GPU count and memory and a pod's GPU memory, GPU count and device annotation are not part of this model. Their results are the fields of `Cache.Node` and `Devices.Pod`, taken to be non-negative Go `int`s except the annotation.
- `DeviceInfo` (its file is not part of this model) is a value holding an index, a capacity and a pod → memory map. Devices are values in the node's map, so the pointer sharing of `GetDevs` results with the node is not modelled.
- Logging: the `log.Printf` calls are diagnostics only.
- Pods are identified by a single key. The namespace, name and UID of the Kubernetes object are folded into it.
- Cache.NodeInfo.GetName, GetNode, GetTotalGPUMemory and GetGPUCount: plain field reads, written as functions with no contract.
