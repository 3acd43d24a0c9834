/** Capacity and overhead arithmetic of an instance type. Sizes are whole MiB and whole cores. */
module Capacity {
  import opened TtlCache

  datatype Cni = Terway | Flannel | OtherCni

  datatype KubeletConfiguration = KubeletConfiguration(maxPods: Option<int>, podsPerCore: Option<int>)

  datatype InstanceInfo = InstanceInfo(
    id: string, architecture: string, cpuCores: int, memoryMi: nat,
    eniQuantity: int, eniAddresses: int, nvidiaGpus: int, amdGpus: int)

  datatype Resources = Resources(
    cpuMilli: int, memoryMi: int, storageG: int, pods: int, nvidiaGpus: int, amdGpus: int)

  const TERWAY_MIN_ENI_PODS := 11
  const BASE_HOST_NETWORK_PODS := 3
  const FLANNEL_DEFAULT_PODS := 256
  const KUBELET_MAX_PODS := 110
  const DEFAULT_DISK_G := 20

  function Min(a: int, b: int): int {
    if a <= b then a else b
  }

  /** Pods that fit on the secondary network interfaces. */
  function EniPods(info: InstanceInfo): int {
    (info.eniQuantity - 1) * info.eniAddresses
  }

  /** Types kept by a discovery: under Terway only those with enough interface addresses. */
  predicate Eligible(info: InstanceInfo, cni: Cni) {
    cni.Terway? ==> EniPods(info) >= TERWAY_MIN_ENI_PODS
  }

  function Pods(info: InstanceInfo, kc: KubeletConfiguration, cni: Cni): int {
    var count :=
      if kc.maxPods.Some? then kc.maxPods.value
      else match cni
        case Terway => EniPods(info) + BASE_HOST_NETWORK_PODS
        case Flannel => FLANNEL_DEFAULT_PODS
        case OtherCni => KUBELET_MAX_PODS;
    if kc.podsPerCore.Some? && kc.podsPerCore.value > 0
    then Min(kc.podsPerCore.value * info.cpuCores, count)
    else count
  }

  /** An explicit pod limit overrides the network's, and a limit per core only lowers either; a type that passed the Terway
      filter holds at least fourteen pods where nothing is configured. */
  lemma PodsFollowLimits(info: InstanceInfo, kc: KubeletConfiguration, cni: Cni)
    ensures kc.podsPerCore.Some? && kc.podsPerCore.value > 0 ==>
              && Pods(info, kc, cni) <= kc.podsPerCore.value * info.cpuCores
              && Pods(info, kc, cni) <= Pods(info, kc.(podsPerCore := None), cni)
    ensures kc.maxPods.Some? ==> Pods(info, kc, cni) <= kc.maxPods.value && Pods(info, kc, cni) == Pods(info, kc, OtherCni)
    ensures kc.maxPods.Some? && kc.podsPerCore.None? ==> Pods(info, kc, cni) == kc.maxPods.value
    ensures kc.maxPods.None? && kc.podsPerCore.None? ==>
              && (cni.Terway? && Eligible(info, cni) ==> Pods(info, kc, cni) >= 14)
              && (cni.Flannel? ==> Pods(info, kc, cni) == 256) && (cni.OtherCni? ==> Pods(info, kc, cni) == 110)
  {
  }

  /** The limit that decides: the configured one, or the network's, eleven or more interface addresses plus three under Terway;
      and of that and a positive limit per core the smaller. */
  lemma PodsExactly(info: InstanceInfo, kc: KubeletConfiguration, cni: Cni)
    ensures var limit := if kc.maxPods.Some? then kc.maxPods.value
                         else if cni.Terway? then info.eniQuantity * info.eniAddresses - info.eniAddresses + 3
                         else if cni.Flannel? then 256 else 110;
            var perCore := kc.podsPerCore.Some? && kc.podsPerCore.value > 0;
            && Pods(info, kc, cni) <= limit && (perCore ==> Pods(info, kc, cni) <= kc.podsPerCore.value * info.cpuCores)
            && (Pods(info, kc, cni) == limit || (perCore && Pods(info, kc, cni) == kc.podsPerCore.value * info.cpuCores))
    ensures Eligible(info, cni) <==> !cni.Terway? || info.eniQuantity * info.eniAddresses - info.eniAddresses >= 11
  {
    assert EniPods(info) == info.eniQuantity * info.eniAddresses - info.eniAddresses;
  }

  /** A type's capacity: cores in thousandths, memory less the least whole MiB that is at least 6.5 percent of it, the disk or
      twenty gigabytes, the pods and the GPUs. */
  lemma CapacityExactly(info: InstanceInfo, kc: KubeletConfiguration, disk: Option<int>, cni: Cni)
    ensures var c := ComputeCapacity(info, kc, disk, cni);
            && c.cpuMilli == 1000 * info.cpuCores && c.pods == Pods(info, kc, cni)
            && c.storageG == (match disk case Some(g) => g case None => 20)
            && c.nvidiaGpus == info.nvidiaGpus && c.amdGpus == info.amdGpus
            && 1000 * (info.memoryMi - c.memoryMi) >= 65 * info.memoryMi
            && 1000 * (info.memoryMi - c.memoryMi - 1) < 65 * info.memoryMi
  {
  }

  /** Reserved memory is 200 MiB on top of the smaller of 11 per pod plus 255 and a quarter of the memory. */
  lemma ReservedExactly(pods: nat, memoryMi: nat)
    ensures var r := ReservedMi(pods, memoryMi) - 200;
            && r <= 11 * pods + 255 && 4 * r <= memoryMi
            && (r == 11 * pods + 255 || memoryMi < 4 * (r + 1))
  {
  }

  /** Default VM overhead: 6.5 percent, rounded up to a whole MiB. */
  function VmOverheadMi(memoryMi: nat): nat {
    (65 * memoryMi + 999) / 1000
  }

  function MemoryMi(memoryMi: nat): int {
    if memoryMi == 0 then 0 else memoryMi - VmOverheadMi(memoryMi)
  }

  /** Reserved memory: the smaller of a per-pod charge and a quarter of the memory, truncated, plus 200 MiB. */
  function ReservedMi(pods: nat, memoryMi: nat): nat {
    Min(11 * pods + 255, memoryMi / 4) + 200
  }

  function StorageG(disk: Option<int>): int {
    if disk.Some? then disk.value else DEFAULT_DISK_G
  }

  function ComputeCapacity(info: InstanceInfo, kc: KubeletConfiguration, disk: Option<int>, cni: Cni): Resources {
    Resources(
      1000 * info.cpuCores, MemoryMi(info.memoryMi), StorageG(disk),
      Pods(info, kc, cni), info.nvidiaGpus, info.amdGpus)
  }

  /** Memory left for workloads, before any further reservation. */
  function AllocatableMi(pods: nat, memoryMi: nat): int {
    MemoryMi(memoryMi) - ReservedMi(pods, memoryMi)
  }

  /** Growing the memory by two MiB or more never lowers what is left; one MiB lowers it by at most one. */
  lemma AllocatableAlmostMonotone(pods: nat, m: nat, n: nat)
    requires m < n
    ensures n >= m + 2 ==> AllocatableMi(pods, m) <= AllocatableMi(pods, n)
    ensures AllocatableMi(pods, m) <= AllocatableMi(pods, n) + 1
  {
  }

  /** The one-MiB loss is real, also for sizes that leave a non-negative amount. */
  lemma OneMiBCanLower(pods: nat)
    ensures AllocatableMi(pods, 308) == AllocatableMi(pods, 307) - 1
  {
  }

  /** Exactly the sizes from 291 MiB up leave a non-negative amount, whatever the pod count. */
  lemma NonNegativeExactlyFrom291(pods: nat, m: nat)
    ensures AllocatableMi(pods, m) >= 0 <==> m >= 291
  {
  }

  /** CPU reserved for the system: steps at one to four cores, then a quarter of a percent. */
  method CpuOverhead(cpuMilli: int) returns (overhead: int)
    ensures overhead == CpuReserved(cpuMilli)
  {
    var thresholds := [(1000, 60), (2000, 10), (3000, 5), (4000, 5)];
    overhead := 0;
    for i := 0 to |thresholds|
      invariant overhead == (if i > 0 && cpuMilli >= 1000 then 60 else 0) + (if i > 1 && cpuMilli >= 2000 then 10 else 0)
                            + (if i > 2 && cpuMilli >= 3000 then 5 else 0) + (if i > 3 && cpuMilli >= 4000 then 5 else 0)
    {
      if cpuMilli >= thresholds[i].0 {
        overhead := overhead + thresholds[i].1;
      }
    }
    if cpuMilli > 4000 {
      overhead := overhead + (cpuMilli - 4000) / 400;
    }
  }

  /** The reservation curve in closed form. */
  function CpuReserved(cpuMilli: int): int {
    if cpuMilli < 1000 then 0
    else if cpuMilli < 2000 then 60
    else if cpuMilli < 3000 then 70
    else if cpuMilli < 4000 then 75
    else 80 + (cpuMilli - 4000) / 400
  }

  /** Over whole cores, a larger machine always reserves at least as much and leaves strictly more. */
  lemma CpuReservationMonotone(cores: nat, more: nat)
    requires cores < more
    ensures CpuReserved(1000 * cores) <= CpuReserved(1000 * more)
    ensures 1000 * cores - CpuReserved(1000 * cores) < 1000 * more - CpuReserved(1000 * more)
  {
  }
}
