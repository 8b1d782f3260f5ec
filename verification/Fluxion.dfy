/** From a pod to the job Fluxion is asked for, and from the allocation to the tasks per node. */
module Fluxion {
  import opened Allocation
  import opened GoInt

  // ---- The pod's job specification ----

  datatype Container = Container(cpu: Quantity, memory: Quantity, storage: Quantity, gpuLimit: Quantity)

  datatype PodSpec = PodSpec(
    id: string,
    container: string,
    labels: seq<string>,
    cpu: int,
    memory: int,
    gpu: int,
    storage: int)

  function MilliCpu(cs: seq<Container>): int {
    if cs == [] then 0 else MilliCpu(cs[..|cs| - 1]) + cs[|cs| - 1].cpu
  }

  /** Each container's request rounded up to whole cores, then summed. */
  function RoundedCpu(cs: seq<Container>): int {
    if cs == [] then 0 else RoundedCpu(cs[..|cs| - 1]) + Value(cs[|cs| - 1].cpu)
  }

  function RoundedMemory(cs: seq<Container>): int {
    if cs == [] then 0 else RoundedMemory(cs[..|cs| - 1]) + Value(cs[|cs| - 1].memory)
  }

  function RoundedStorage(cs: seq<Container>): int {
    if cs == [] then 0 else RoundedStorage(cs[..|cs| - 1]) + Value(cs[|cs| - 1].storage)
  }

  function GpuLimits(cs: seq<Container>): int {
    if cs == [] then 0 else GpuLimits(cs[..|cs| - 1]) + Value(cs[|cs| - 1].gpuLimit)
  }

  /** The cpu of the job specification: the int32 sum, with 1 standing in for 0. */
  function JobCpu(cs: seq<Container>): (cpu: int)
    ensures cpu != 0
  {
    var s := ToInt32(RoundedCpu(cs));
    if s == 0 then 1 else s
  }

  method PreparePodJobSpec(cs: seq<Container>, labels: seq<string>, groupName: string) returns (spec: PodSpec)
    ensures spec == PodSpec(groupName, groupName, labels, JobCpu(cs), RoundedMemory(cs), GpuLimits(cs),
                            RoundedStorage(cs))
  {
    var cpus, memory, gpus, storage := 0, 0, 0, 0;
    for i := 0 to |cs|
      invariant cpus == ToInt32(RoundedCpu(cs[..i]))
      invariant memory == RoundedMemory(cs[..i])
      invariant gpus == GpuLimits(cs[..i])
      invariant storage == RoundedStorage(cs[..i])
    {
      assert cs[..i + 1][..i] == cs[..i];
      ToInt32Add(RoundedCpu(cs[..i]), Value(cs[i].cpu));
      cpus := ToInt32(cpus + ToInt32(Value(cs[i].cpu)));
      memory := memory + Value(cs[i].memory);
      storage := storage + Value(cs[i].storage);
      gpus := gpus + Value(cs[i].gpuLimit);
    }
    assert cs[..|cs|] == cs;
    if cpus == 0 {
      cpus := 1;
    }
    spec := PodSpec(groupName, groupName, labels, cpus, memory, gpus, storage);
  }

  ghost predicate NonNegativeCpu(cs: seq<Container>) {
    forall i :: 0 <= i < |cs| ==> cs[i].cpu >= 0
  }

  lemma {:induction false} RoundingBounds(cs: seq<Container>)
    requires NonNegativeCpu(cs)
    ensures 0 <= MilliCpu(cs) <= 1000 * RoundedCpu(cs)
    ensures cs != [] ==> 1000 * RoundedCpu(cs) < MilliCpu(cs) + 1000 * |cs|
  {
    if cs != [] {
      var n := |cs| - 1;
      RoundingBounds(cs[..n]);
      assert 0 <= cs[n].cpu <= 1000 * Value(cs[n].cpu) < cs[n].cpu + 1000;
    }
  }

  /** The whole cores asked for cover the pod's requests exactly when the rounded sum fits in int32. */
  lemma JobCpuCoversExactly(cs: seq<Container>)
    requires NonNegativeCpu(cs) && |cs| < TWO_TO_32
    ensures MilliCpu(cs) <= 1000 * JobCpu(cs) <==> RoundedCpu(cs) <= INT32_MAX
    ensures RoundedCpu(cs) <= INT32_MAX ==> JobCpu(cs) == if RoundedCpu(cs) == 0 then 1 else RoundedCpu(cs)
    ensures RoundedCpu(cs) <= INT32_MAX ==> JobCpu(cs) >= 1
  {
    RoundingBounds(cs);
    var r := RoundedCpu(cs);
    if r > INT32_MAX {
      WrapsDown(r);
    }
  }

  /** Each container adds the least whole units that cover what it requests, its gpu limit included. */
  lemma EachContainerAdds(cs: seq<Container>, c: Container)
    requires c.cpu >= 0 && c.memory >= 0 && c.storage >= 0 && c.gpuLimit >= 0
    ensures LeastCover(RoundedCpu(cs + [c]) - RoundedCpu(cs), c.cpu) && RoundedCpu([]) == 0
    ensures LeastCover(RoundedMemory(cs + [c]) - RoundedMemory(cs), c.memory) && RoundedMemory([]) == 0
    ensures LeastCover(RoundedStorage(cs + [c]) - RoundedStorage(cs), c.storage) && RoundedStorage([]) == 0
    ensures LeastCover(GpuLimits(cs + [c]) - GpuLimits(cs), c.gpuLimit) && GpuLimits([]) == 0
  {
    assert (cs + [c])[..|cs|] == cs;
    ValueRoundsAway(c.cpu);
    ValueRoundsAway(c.memory);
    ValueRoundsAway(c.storage);
    ValueRoundsAway(c.gpuLimit);
  }

  lemma WrapsDown(r: int)
    requires r > INT32_MAX
    ensures ToInt32(r) <= r - TWO_TO_32
  {
  }

  // ---- The resources asked for ----

  datatype Resource = Resource(rtype: string, count: int, slotLabel: string, children: seq<Resource>)

  function CreateSocketResources(spec: PodSpec): seq<Resource> {
    [Resource("core", spec.cpu, "", [])]
    + (if spec.memory > 0 then [Resource("memory", spec.memory / 0x10_0000, "", [])] else [])
    + (if spec.gpu > 0 then [Resource("gpu", spec.gpu, "", [])] else [])
  }

  function CreateResources(spec: PodSpec, socket: seq<Resource>, count: int): seq<Resource> {
    var slot := [Resource("slot", count, "default", socket)];
    if "zone" in spec.labels then [Resource("subnet", 1, "", [Resource("node", 1, "", slot)])] else slot
  }

  /** How many of a resource type a request asks for, counts multiplying down the nesting. */
  function Asked(rs: seq<Resource>, rtype: string): int
    decreases rs
  {
    if rs == [] then 0
    else
      (if rs[0].rtype == rtype then rs[0].count else rs[0].count * Asked(rs[0].children, rtype))
      + Asked(rs[1..], rtype)
  }

  /** Whatever the labels, the request is for `count` slots, each of `cpu` cores, the whole MiB of the memory
      if positive, and the gpus if positive; the zone label adds that they all be under one node of one subnet. */
  lemma RequestAsksForSlots(spec: PodSpec, count: int)
    ensures
      var rs := CreateResources(spec, CreateSocketResources(spec), count);
      && Asked(rs, "slot") == count
      && Asked(rs, "core") == count * spec.cpu
      && Asked(rs, "node") == (if "zone" in spec.labels then 1 else 0)
      && Asked(rs, "subnet") == (if "zone" in spec.labels then 1 else 0)
      && Asked(rs, "gpu") == count * (if spec.gpu > 0 then spec.gpu else 0)
      && exists mib: nat :: Asked(rs, "memory") == count * mib && WholeMiB(mib, spec.memory)
  {
    hide CreateSocketResources, Asked;
    var socket := CreateSocketResources(spec);
    SocketAsks(spec);
    LevelsAsk(socket, count, "slot");
    LevelsAsk(socket, count, "core");
    LevelsAsk(socket, count, "node");
    LevelsAsk(socket, count, "subnet");
    LevelsAsk(socket, count, "gpu");
    LevelsAsk(socket, count, "memory");
    assert WholeMiB(Asked(socket, "memory"), spec.memory);
  }

  /** One slot level, and the node and subnet levels around it, multiply by their counts. */
  lemma LevelsAsk(socket: seq<Resource>, count: int, rtype: string)
    ensures var slot := [Resource("slot", count, "default", socket)];
            var zoned := [Resource("subnet", 1, "", [Resource("node", 1, "", slot)])];
            && Asked(slot, rtype) == (if rtype == "slot" then count else count * Asked(socket, rtype))
            && Asked(zoned, rtype) == (if rtype == "subnet" || rtype == "node" then 1 else Asked(slot, rtype))
  {
    var slot := Resource("slot", count, "default", socket);
    var node := Resource("node", 1, "", [slot]);
    AskedOne(slot, rtype);
    AskedOne(node, rtype);
    AskedOne(Resource("subnet", 1, "", [node]), rtype);
  }

  /** The whole MiB in a number of bytes; none in a negative one. */
  predicate WholeMiB(mib: nat, bytes: int) {
    if bytes <= 0 then mib == 0 else 0x10_0000 * mib <= bytes < 0x10_0000 * (mib + 1)
  }

  lemma AskedOne(r: Resource, rtype: string)
    ensures Asked([r], rtype) == if r.rtype == rtype then r.count else r.count * Asked(r.children, rtype)
  {
  }

  lemma SocketAsks(spec: PodSpec)
    ensures var rs := CreateSocketResources(spec);
            && Asked(rs, "core") == spec.cpu
            && Asked(rs, "slot") == Asked(rs, "node") == Asked(rs, "subnet") == 0
            && Asked(rs, "gpu") == (if spec.gpu > 0 then spec.gpu else 0)
            && Asked(rs, "memory") >= 0 && WholeMiB(Asked(rs, "memory"), spec.memory)
  {
    SocketAsksFor(spec, "core");
    SocketAsksFor(spec, "slot");
    SocketAsksFor(spec, "node");
    SocketAsksFor(spec, "subnet");
    SocketAsksFor(spec, "gpu");
    SocketAsksFor(spec, "memory");
  }

  lemma SocketAsksFor(spec: PodSpec, rtype: string)
    ensures Asked(CreateSocketResources(spec), rtype)
         == (if rtype == "core" then spec.cpu else 0)
            + (if rtype == "memory" && spec.memory > 0 then spec.memory / 0x10_0000 else 0)
            + (if rtype == "gpu" && spec.gpu > 0 then spec.gpu else 0)
  {
    var memory := if spec.memory > 0 then [Resource("memory", spec.memory / 0x10_0000, "", [])] else [];
    var gpu := if spec.gpu > 0 then [Resource("gpu", spec.gpu, "", [])] else [];
    var core := Resource("core", spec.cpu, "", []);
    AskedConcat([core] + memory, gpu, rtype);
    AskedConcat([core], memory, rtype);
    AskedOne(core, rtype);
  }

  lemma {:induction false} AskedConcat(a: seq<Resource>, b: seq<Resource>, rtype: string)
    ensures Asked(a + b, rtype) == Asked(a, rtype) + Asked(b, rtype)
  {
    if a == [] {
      assert a + b == b;
    } else {
      assert (a + b)[1..] == a[1..] + b;
      AskedConcat(a[1..], b, rtype);
    }
  }

  // ---- The answer to a match ----

  datatype NodeAlloc = NodeAlloc(nodeId: string, tasks: int)

  function NodeTask(n: NodeCores, cpu: int): NodeAlloc
    requires cpu != 0
  {
    NodeAlloc(n.basename, ToInt32(Quot(ToInt32(n.coreCount), cpu)))
  }

  function NodeTasks(ns: seq<NodeCores>, cpu: int): seq<NodeAlloc>
    requires cpu != 0
  {
    seq(|ns|, i requires 0 <= i < |ns| => NodeTask(ns[i], cpu))
  }

  /** The node list of the match response, filled in place. A zero cpu would divide by zero. */
  method FillNodeTasks(ns: seq<NodeCores>, cpu: int) returns (list: array<NodeAlloc>)
    requires cpu != 0
    ensures fresh(list) && list[..] == NodeTasks(ns, cpu)
  {
    list := new NodeAlloc[|ns|](_ => NodeAlloc("", 0));
    for i := 0 to |ns|
      invariant forall k :: 0 <= k < i ==> list[k] == NodeTask(ns[k], cpu)
    {
      list[i] := NodeAlloc(ns[i].basename, ToInt32(Quot(ToInt32(ns[i].coreCount), cpu)));
    }
  }

  /** The response for an allocation tree listed in post-order. */
  function Answer(t: Tree, cpu: int): seq<NodeAlloc>
    requires cpu != 0
  {
    NodeTasks(Fold(NOTHING, PostOrder(t)).nodes, cpu)
  }

  /** A node's tasks never need more cores than it was counted with, even where int32 wraps. */
  lemma TasksFitCores(cores: nat, cpu: int)
    requires 1 <= cpu <= INT32_MAX
    ensures var tasks := ToInt32(Quot(ToInt32(cores), cpu)); tasks * cpu <= cores
  {
    var x := ToInt32(cores);
    assert x <= cores by {
      var k := (cores + 0x8000_0000) / TWO_TO_32;
      assert x == cores - k * TWO_TO_32;
    }
    QuotShrinks(x, cpu);
  }

  lemma QuotShrinks(x: int, cpu: int)
    requires cpu >= 1 && INT32_MIN <= x <= INT32_MAX
    ensures var q := Quot(x, cpu);
            INT32_MIN <= q <= INT32_MAX && (if x >= 0 then 0 <= q * cpu <= x && q >= 0 else q <= 0 && q * cpu <= 0)
  {
    DivShrinks(Abs(x), cpu);
    var d := Abs(x) / cpu;
    assert (-d) * cpu == -(d * cpu);
  }

  lemma DivShrinks(m: nat, cpu: int)
    requires cpu >= 1
    ensures 0 <= m / cpu <= m && 0 <= m / cpu * cpu <= m
  {
    var d := m / cpu;
    assert m == d * cpu + m % cpu;
    MulMonotone(0, d, cpu);
    MulMonotone(1, cpu, d);
  }

  /** Tasks are the slots exactly when the cores of those slots fit in int32. */
  lemma TasksAreSlotsExactly(slots: int, cpu: int)
    requires 1 <= slots <= INT32_MAX && 1 <= cpu <= INT32_MAX
    ensures ToInt32(Quot(ToInt32(slots * cpu), cpu)) == slots <==> slots * cpu <= INT32_MAX
  {
    var c := slots * cpu;
    MulMonotone(1, slots, cpu);
    if c <= INT32_MAX {
      QuotOfMultiple(slots, cpu);
    } else {
      WrapsDown(c);
      QuotShrinks(ToInt32(c), cpu);
      var q := Quot(ToInt32(c), cpu);
      if q >= slots {
        MulMonotone(slots, q, cpu);
      }
    }
  }
}
