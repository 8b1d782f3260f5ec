/** The gang gate: pods wait at Permit until enough of their group hold assignments.

    The framework's cache counts a pod as assigned from the end of its scheduling cycle until it is forgotten,
    which for a rejected pod is some time after the rejection. A cycle works on the snapshot of the cache taken
    at its start. Timeouts, rejections and deletions happen at any point of a cycle. */
module Gang {
  datatype Pod = Pod(namespace: string, name: string, groupLabel: string)

  datatype GroupKey = GroupKey(namespace: string, name: string)

  function KeyOf(p: Pod): GroupKey {
    GroupKey(p.namespace, p.groupLabel)
  }

  /** The PodGroup objects and their MinMember. */
  type Groups = map<GroupKey, int>

  datatype Cycle = NoCycle | InCycle(pod: Pod, snapshot: set<Pod>)

  datatype Gate = Gate(waiting: set<Pod>, rejected: set<Pod>, released: set<Pod>, cycle: Cycle)

  const OPEN := Gate({}, {}, {}, NoCycle)

  function Assigned(s: Gate): set<Pod> {
    s.waiting + s.rejected + s.released
  }

  function Of(ps: set<Pod>, g: GroupKey): set<Pod> {
    set p | p in ps && KeyOf(p) == g
  }

  datatype Status = Success | Wait | NotSpecified | NotFound

  datatype Step =
    | Start(pod: Pod)
    | Permit
    | PostFilter
    | Unreserve(pod: Pod)
    | Abandon
    | Timeout(pod: Pod)
    | Forget(pod: Pod)

  /** The decision of `PodGroupManager.Permit`, on the count of assigned pods in the snapshot. */
  function Decide(groups: Groups, p: Pod, held: int): Status {
    if p.groupLabel == "" then NotSpecified
    else if KeyOf(p) !in groups then NotFound
    else if held + 1 >= groups[KeyOf(p)] then Success
    else Wait
  }

  function RejectGroup(s: Gate, g: GroupKey): Gate {
    s.(waiting := s.waiting - Of(s.waiting, g), rejected := s.rejected + Of(s.waiting, g))
  }

  function AfterPermit(groups: Groups, s: Gate, p: Pod, held: int): Gate {
    match Decide(groups, p, held)
    case Success =>
      s.(waiting := s.waiting - Of(s.waiting, KeyOf(p)), released := s.released + Of(s.waiting, KeyOf(p)) + {p},
         cycle := NoCycle)
    case Wait => s.(waiting := s.waiting + {p}, cycle := NoCycle)
    case NotSpecified => s.(released := s.released + {p}, cycle := NoCycle)
    case NotFound => s.(cycle := NoCycle)
  }

  function AfterPostFilter(groups: Groups, s: Gate, p: Pod, held: int): Gate {
    var t := s.(cycle := NoCycle);
    if p.groupLabel == "" || KeyOf(p) !in groups || held >= groups[KeyOf(p)] then t
    else RejectGroup(t, KeyOf(p))
  }

  function AfterUnreserve(groups: Groups, s: Gate, p: Pod): Gate {
    if p.groupLabel == "" || KeyOf(p) !in groups then s else RejectGroup(s, KeyOf(p))
  }

  predicate Enabled(s: Gate, step: Step) {
    match step
    case Start(p) => s.cycle.NoCycle? && p !in Assigned(s)
    case Permit => s.cycle.InCycle?
    case PostFilter => s.cycle.InCycle?
    case Abandon => s.cycle.InCycle?
    case Unreserve(p) => p in s.rejected + s.released
    case Timeout(p) => p in s.waiting
    case Forget(p) => p in s.rejected + s.released
  }

  function Next(groups: Groups, s: Gate, step: Step): Gate {
    match step
    case Start(p) => s.(cycle := InCycle(p, Assigned(s)))
    case Permit =>
      if s.cycle.NoCycle? then s
      else AfterPermit(groups, s, s.cycle.pod, |Of(s.cycle.snapshot, KeyOf(s.cycle.pod))|)
    case PostFilter =>
      if s.cycle.NoCycle? then s
      else AfterPostFilter(groups, s, s.cycle.pod, |Of(s.cycle.snapshot, KeyOf(s.cycle.pod))|)
    case Abandon =>
      if s.cycle.NoCycle? then s else AfterUnreserve(groups, s, s.cycle.pod).(cycle := NoCycle)
    case Unreserve(p) => AfterUnreserve(groups, s, p)
    case Timeout(p) => s.(waiting := s.waiting - {p}, rejected := s.rejected + {p})
    case Forget(p) => s.(rejected := s.rejected - {p}, released := s.released - {p})
  }

  function Run(groups: Groups, steps: seq<Step>): Gate {
    if steps == [] then OPEN else Next(groups, Run(groups, steps[..|steps| - 1]), steps[|steps| - 1])
  }

  predicate Possible(groups: Groups, steps: seq<Step>) {
    steps == [] ||
    (Possible(groups, steps[..|steps| - 1]) && Enabled(Run(groups, steps[..|steps| - 1]), steps[|steps| - 1]))
  }

  // ---- Counting assigned pods in the snapshot ----

  datatype PodInfo = PodInfo(pod: Pod, nodeName: string)

  predicate Counts(i: PodInfo, g: GroupKey) {
    i.pod.groupLabel == g.name && i.pod.namespace == g.namespace && i.nodeName != ""
  }

  function CountIn(infos: seq<PodInfo>, g: GroupKey): nat {
    if infos == [] then 0 else CountIn(infos[..|infos| - 1], g) + (if Counts(infos[|infos| - 1], g) then 1 else 0)
  }

  function CountAll(nodes: seq<seq<PodInfo>>, g: GroupKey): nat {
    if nodes == [] then 0 else CountAll(nodes[..|nodes| - 1], g) + CountIn(nodes[|nodes| - 1], g)
  }

  method CalculateAssignedPods(nodes: seq<seq<PodInfo>>, g: GroupKey) returns (count: nat)
    ensures count == CountAll(nodes, g)
  {
    count := 0;
    for i := 0 to |nodes|
      invariant count == CountAll(nodes[..i], g)
    {
      var infos := nodes[i];
      ghost var before := count;
      for k := 0 to |infos|
        invariant count == before + CountIn(infos[..k], g)
      {
        assert infos[..k + 1][..k] == infos[..k];
        if Counts(infos[k], g) {
          count := count + 1;
        }
      }
      assert infos[..|infos|] == infos;
      assert nodes[..i + 1][..i] == nodes[..i];
    }
    assert nodes[..|nodes|] == nodes;
  }

  ghost predicate Flat(nodes: seq<seq<PodInfo>>, all: seq<PodInfo>) {
    if nodes == [] then all == []
    else
      var last := nodes[|nodes| - 1];
      |last| <= |all| && all[|all| - |last|..] == last && Flat(nodes[..|nodes| - 1], all[..|all| - |last|])
  }

  /** The node infos list each assigned pod of the snapshot once, with its node, and nobody else with one. */
  ghost predicate ListsSnapshot(nodes: seq<seq<PodInfo>>, snapshot: set<Pod>) {
    exists all :: Flat(nodes, all) && ListedOnce(all, snapshot)
  }

  ghost predicate ListedOnce(all: seq<PodInfo>, snapshot: set<Pod>) {
    && PodsDiffer(all)
    && (forall p :: p in snapshot <==> exists i :: 0 <= i < |all| && all[i].nodeName != "" && all[i].pod == p)
  }

  lemma {:induction false} CountConcat(a: seq<PodInfo>, b: seq<PodInfo>, g: GroupKey)
    ensures CountIn(a + b, g) == CountIn(a, g) + CountIn(b, g)
  {
    if b == [] {
      assert a + b == a;
    } else {
      assert (a + b)[..|a + b| - 1] == a + b[..|b| - 1];
      CountConcat(a, b[..|b| - 1], g);
    }
  }

  lemma {:induction false} CountFlat(nodes: seq<seq<PodInfo>>, all: seq<PodInfo>, g: GroupKey)
    requires Flat(nodes, all)
    ensures CountAll(nodes, g) == CountIn(all, g)
  {
    if nodes != [] {
      var last := nodes[|nodes| - 1];
      var rest := all[..|all| - |last|];
      CountFlat(nodes[..|nodes| - 1], rest, g);
      CountConcat(rest, last, g);
      assert all == rest + last;
    }
  }

  function Found(all: seq<PodInfo>, g: GroupKey): set<Pod> {
    if all == [] then {}
    else Found(all[..|all| - 1], g) + (if Counts(all[|all| - 1], g) then {all[|all| - 1].pod} else {})
  }

  lemma {:induction false} FoundWhere(all: seq<PodInfo>, g: GroupKey, p: Pod)
    ensures p in Found(all, g) <==> exists i :: 0 <= i < |all| && Counts(all[i], g) && all[i].pod == p
  {
    if all != [] {
      var n := |all| - 1;
      FoundWhere(all[..n], g, p);
      assert forall i :: 0 <= i < n ==> all[..n][i] == all[i];
    }
  }

  ghost predicate PodsDiffer(all: seq<PodInfo>) {
    forall i, j :: 0 <= i < j < |all| && all[i].nodeName != "" && all[j].nodeName != "" ==> all[i].pod != all[j].pod
  }

  lemma {:induction false} CountFound(all: seq<PodInfo>, g: GroupKey)
    requires PodsDiffer(all)
    ensures CountIn(all, g) == |Found(all, g)|
  {
    if all != [] {
      var n := |all| - 1;
      CountFound(all[..n], g);
      FoundWhere(all[..n], g, all[n].pod);
    }
  }

  lemma FoundIsGroup(all: seq<PodInfo>, snapshot: set<Pod>, g: GroupKey, p: Pod)
    requires ListedOnce(all, snapshot)
    ensures p in Found(all, g) <==> p in Of(snapshot, g)
  {
    hide PodsDiffer, Found;
    FoundWhere(all, g, p);
    if p in Found(all, g) {
      var i :| 0 <= i < |all| && Counts(all[i], g) && all[i].pod == p;
      assert all[i].nodeName != "";
    }
    if p in Of(snapshot, g) {
      var i :| 0 <= i < |all| && all[i].nodeName != "" && all[i].pod == p;
      assert Counts(all[i], g);
    }
  }

  /** The nested loops count the group's pods in the snapshot. */
  lemma CountIsGroupSize(nodes: seq<seq<PodInfo>>, snapshot: set<Pod>, g: GroupKey)
    requires ListsSnapshot(nodes, snapshot)
    ensures CountAll(nodes, g) == |Of(snapshot, g)|
  {
    hide Found, Of, CountAll, CountIn;
    var all :| Flat(nodes, all) && ListedOnce(all, snapshot);
    CountFlat(nodes, all, g);
    CountFound(all, g);
    forall p ensures p in Found(all, g) <==> p in Of(snapshot, g) {
      FoundIsGroup(all, snapshot, g, p);
    }
    assert Found(all, g) == Of(snapshot, g);
  }

  // ---- The gate object ----

  class GangGate {
    var waiting: set<Pod>
    var rejected: set<Pod>
    var released: set<Pod>
    var cycle: Cycle

    function View(): Gate
      reads this
    {
      Gate(waiting, rejected, released, cycle)
    }

    constructor ()
      ensures View() == OPEN
    {
      waiting, rejected, released, cycle := {}, {}, {}, NoCycle;
    }

    /** Permit for the cycle's pod, over the node infos of the cycle's snapshot. */
    method PermitPod(groups: Groups, nodes: seq<seq<PodInfo>>) returns (status: Status)
      requires cycle.InCycle? && ListsSnapshot(nodes, cycle.snapshot)
      modifies this
      ensures View() == Next(groups, old(View()), Permit)
      ensures status == Decide(groups, old(cycle).pod, |Of(old(cycle).snapshot, KeyOf(old(cycle).pod))|)
    {
      hide ListsSnapshot, CountAll;
      var pod := cycle.pod;
      CountIsGroupSize(nodes, cycle.snapshot, KeyOf(pod));
      cycle := NoCycle;
      if pod.groupLabel == "" {
        released := released + {pod};
        return NotSpecified;
      }
      if KeyOf(pod) !in groups {
        return NotFound;
      }
      var held := CalculateAssignedPods(nodes, KeyOf(pod));
      if held + 1 >= groups[KeyOf(pod)] {
        var allowed := set w | w in waiting && KeyOf(w) == KeyOf(pod);
        waiting := waiting - allowed;
        released := released + allowed + {pod};
        return Success;
      }
      waiting := waiting + {pod};
      status := Wait;
    }

    /** A pod that failed takes its waiting siblings with it, unless enough of them are assigned. */
    method PostFilterPod(groups: Groups, nodes: seq<seq<PodInfo>>)
      requires cycle.InCycle? && ListsSnapshot(nodes, cycle.snapshot)
      modifies this
      ensures View() == Next(groups, old(View()), PostFilter)
    {
      hide ListsSnapshot, CountAll;
      var pod := cycle.pod;
      CountIsGroupSize(nodes, cycle.snapshot, KeyOf(pod));
      cycle := NoCycle;
      if pod.groupLabel == "" || KeyOf(pod) !in groups {
        return;
      }
      var held := CalculateAssignedPods(nodes, KeyOf(pod));
      if held >= groups[KeyOf(pod)] {
        return;
      }
      RejectWaiting(KeyOf(pod));
    }

    method UnreservePod(groups: Groups, pod: Pod)
      modifies this
      ensures View() == Next(groups, old(View()), Unreserve(pod))
    {
      if pod.groupLabel == "" || KeyOf(pod) !in groups {
        return;
      }
      RejectWaiting(KeyOf(pod));
    }

    method RejectWaiting(g: GroupKey)
      modifies this`waiting, this`rejected
      ensures View() == RejectGroup(old(View()), g)
    {
      var hit := set w | w in waiting && KeyOf(w) == g;
      waiting := waiting - hit;
      rejected := rejected + hit;
    }
  }

  // ---- What every run keeps ----

  /** The snapshot still covers everyone assigned; a group that waits is short of MinMember. */
  ghost predicate GateInv(groups: Groups, s: Gate) {
    && s.waiting !! s.rejected && s.waiting !! s.released && s.rejected !! s.released
    && (s.cycle.InCycle? ==> Assigned(s) <= s.cycle.snapshot && s.cycle.pod !in s.cycle.snapshot)
    && (forall p :: p in s.waiting ==> p.groupLabel != "" && KeyOf(p) in groups)
    && (forall p :: p in s.waiting ==> |Of(Assigned(s), KeyOf(p))| < groups[KeyOf(p)])
  }

  lemma SmallerGroup(a: set<Pod>, b: set<Pod>, g: GroupKey)
    requires a <= b
    ensures |Of(a, g)| <= |Of(b, g)|
  {
    assert Of(b, g) == Of(a, g) + (Of(b, g) - Of(a, g));
  }

  /** Steps that only reject or forget keep the invariant. */
  lemma ShrinkKeeps(groups: Groups, s: Gate, t: Gate)
    requires GateInv(groups, s)
    requires t.waiting <= s.waiting && Assigned(t) <= Assigned(s)
    requires t.waiting !! t.rejected && t.waiting !! t.released && t.rejected !! t.released
    requires t.cycle == s.cycle || t.cycle.NoCycle?
    ensures GateInv(groups, t)
  {
    hide Of;
    forall p | p in t.waiting ensures |Of(Assigned(t), KeyOf(p))| < groups[KeyOf(p)] {
      SmallerGroup(Assigned(t), Assigned(s), KeyOf(p));
    }
  }

  /** One more waiting pod: its own group grows by one, the others stay. */
  lemma WaitKeeps(groups: Groups, s: Gate, p: Pod)
    requires GateInv(groups, s) && p !in Assigned(s)
    requires p.groupLabel != "" && KeyOf(p) in groups && |Of(Assigned(s), KeyOf(p))| + 1 < groups[KeyOf(p)]
    ensures GateInv(groups, s.(waiting := s.waiting + {p}, cycle := NoCycle))
  {
    var t := s.(waiting := s.waiting + {p}, cycle := NoCycle);
    assert Assigned(t) == Assigned(s) + {p};
    hide Assigned;
    forall q | q in t.waiting ensures |Of(Assigned(t), KeyOf(q))| < groups[KeyOf(q)] {
      assert q in s.waiting || q == p;
      GrowGroup(Assigned(s), p, KeyOf(q));
    }
  }

  lemma GrowGroup(a: set<Pod>, p: Pod, g: GroupKey)
    requires p !in a
    ensures |Of(a + {p}, g)| == |Of(a, g)| + (if KeyOf(p) == g then 1 else 0)
  {
    if KeyOf(p) == g {
      assert Of(a + {p}, g) == Of(a, g) + {p};
    } else {
      assert Of(a + {p}, g) == Of(a, g);
    }
  }

  /** A release leaves nobody of its group waiting; other groups keep their numbers. */
  lemma ReleaseKeeps(groups: Groups, s: Gate, p: Pod, t: Gate)
    requires GateInv(groups, s) && p !in Assigned(s)
    requires t == s.(waiting := s.waiting - Of(s.waiting, KeyOf(p)),
                     released := s.released + Of(s.waiting, KeyOf(p)) + {p}, cycle := NoCycle)
    ensures GateInv(groups, t)
  {
    assert Assigned(t) == Assigned(s) + {p};
    hide Assigned;
    forall q | q in t.waiting ensures |Of(Assigned(t), KeyOf(q))| < groups[KeyOf(q)] {
      GrowGroup(Assigned(s), p, KeyOf(q));
    }
  }

  /** A pod of no group is in no one's count. */
  lemma SoloKeeps(groups: Groups, s: Gate, p: Pod)
    requires GateInv(groups, s) && p !in Assigned(s) && p.groupLabel == ""
    ensures GateInv(groups, s.(released := s.released + {p}, cycle := NoCycle))
  {
    var t := s.(released := s.released + {p}, cycle := NoCycle);
    assert Assigned(t) == Assigned(s) + {p};
    hide Assigned;
    forall q | q in t.waiting ensures |Of(Assigned(t), KeyOf(q))| < groups[KeyOf(q)] {
      GrowGroup(Assigned(s), p, KeyOf(q));
    }
  }

  lemma PermitKeeps(groups: Groups, s: Gate)
    requires GateInv(groups, s) && s.cycle.InCycle?
    ensures GateInv(groups, Next(groups, s, Permit))
  {
    hide GateInv, Of;
    var p := s.cycle.pod;
    var n := |Of(s.cycle.snapshot, KeyOf(p))|;
    SnapshotCovers(groups, s);
    match Decide(groups, p, n)
    case Success => ReleaseKeeps(groups, s, p, Next(groups, s, Permit));
    case Wait => WaitKeeps(groups, s, p);
    case NotSpecified => SoloKeeps(groups, s, p);
    case NotFound =>
      GateParts(groups, s);
      ShrinkKeeps(groups, s, Next(groups, s, Permit));
  }

  lemma GateParts(groups: Groups, s: Gate)
    requires GateInv(groups, s)
    ensures s.waiting !! s.rejected && s.waiting !! s.released && s.rejected !! s.released
  {
  }

  /** What the snapshot says of the group is at least what is assigned now. */
  lemma SnapshotCovers(groups: Groups, s: Gate)
    requires GateInv(groups, s) && s.cycle.InCycle?
    ensures s.cycle.pod !in Assigned(s)
    ensures |Of(Assigned(s), KeyOf(s.cycle.pod))| <= |Of(s.cycle.snapshot, KeyOf(s.cycle.pod))|
  {
    SmallerGroup(Assigned(s), s.cycle.snapshot, KeyOf(s.cycle.pod));
  }

  lemma StepKeepsGate(groups: Groups, s: Gate, step: Step)
    requires GateInv(groups, s) && Enabled(s, step)
    ensures GateInv(groups, Next(groups, s, step))
  {
    match step
    case Start(p) =>
    case Permit => PermitKeeps(groups, s);
    case PostFilter => ShrinkKeeps(groups, s, Next(groups, s, step));
    case Abandon => ShrinkKeeps(groups, s, Next(groups, s, step));
    case Unreserve(p) => ShrinkKeeps(groups, s, Next(groups, s, step));
    case Timeout(p) => ShrinkKeeps(groups, s, Next(groups, s, step));
    case Forget(p) => ShrinkKeeps(groups, s, Next(groups, s, step));
  }

  lemma {:induction false} GateAlways(groups: Groups, steps: seq<Step>)
    requires Possible(groups, steps)
    ensures GateInv(groups, Run(groups, steps))
  {
    if steps != [] {
      GateAlways(groups, steps[..|steps| - 1]);
      StepKeepsGate(groups, Run(groups, steps[..|steps| - 1]), steps[|steps| - 1]);
    }
  }

  /** In every reachable state a group with a waiting pod has fewer than MinMember assigned pods. */
  lemma WaitingIsBelowMinMember(groups: Groups, steps: seq<Step>, p: Pod)
    requires Possible(groups, steps) && p in Run(groups, steps).waiting
    ensures KeyOf(p) in groups
    ensures |Of(Assigned(Run(groups, steps)), KeyOf(p))| < groups[KeyOf(p)]
  {
    GateAlways(groups, steps);
  }

  /** A pod of a known group becomes released only at a Permit, and only when at least MinMember pods of its
      group, itself included, held assignments in that cycle. */
  lemma ReleasedWithQuorum(groups: Groups, steps: seq<Step>, step: Step, q: Pod)
    requires Possible(groups, steps) && Enabled(Run(groups, steps), step)
    requires q !in Run(groups, steps).released && q in Next(groups, Run(groups, steps), step).released
    requires q.groupLabel != ""
    ensures var s := Run(groups, steps);
            && step == Permit && KeyOf(q) in groups
            && q in Of(s.cycle.snapshot + {s.cycle.pod}, KeyOf(q))
            && |Of(s.cycle.snapshot + {s.cycle.pod}, KeyOf(q))| >= groups[KeyOf(q)]
  {
    hide Of, Run, Possible;
    GateAlways(groups, steps);
    var s := Run(groups, steps);
    StepReleases(groups, s, step, q);
    SnapshotCovers(groups, s);
    GrowGroup(s.cycle.snapshot, s.cycle.pod, KeyOf(q));
    InGroup(s.cycle.snapshot, s.cycle.pod, q);
  }

  /** Only a Permit that decides Success releases a grouped pod: the cycle's own, or a waiting one. */
  lemma StepReleases(groups: Groups, s: Gate, step: Step, q: Pod)
    requires GateInv(groups, s) && Enabled(s, step)
    requires q !in s.released && q in Next(groups, s, step).released && q.groupLabel != ""
    ensures step == Permit && KeyOf(q) == KeyOf(s.cycle.pod) && (q == s.cycle.pod || q in s.cycle.snapshot)
    ensures Decide(groups, s.cycle.pod, |Of(s.cycle.snapshot, KeyOf(q))|) == Success
    ensures s.cycle.pod !in s.cycle.snapshot
  {
  }

  lemma InGroup(ps: set<Pod>, p: Pod, q: Pod)
    requires q == p || q in ps
    ensures q in Of(ps + {p}, KeyOf(q))
  {
  }

  /** The pods forgotten since the cycle in progress began. */
  function ForgottenInCycle(steps: seq<Step>): set<Pod> {
    if steps == [] then {}
    else
      match steps[|steps| - 1]
      case Start(_) => {}
      case Forget(p) => ForgottenInCycle(steps[..|steps| - 1]) + {p}
      case _ => ForgottenInCycle(steps[..|steps| - 1])
  }

  /** During a cycle the snapshot is who is assigned now and who was forgotten meanwhile. */
  lemma {:induction false} SnapshotSplits(groups: Groups, steps: seq<Step>)
    requires Possible(groups, steps) && Run(groups, steps).cycle.InCycle?
    ensures Run(groups, steps).cycle.snapshot == Assigned(Run(groups, steps)) + ForgottenInCycle(steps)
    ensures Assigned(Run(groups, steps)) !! ForgottenInCycle(steps)
  {
    hide GateInv, Next, Assigned;
    var before, step := steps[..|steps| - 1], steps[|steps| - 1];
    GateAlways(groups, before);
    StepSplits(groups, Run(groups, before), step);
    if !step.Start? {
      SnapshotSplits(groups, before);
    }
  }

  /** Within a cycle only forgetting changes who is assigned. */
  lemma StepSplits(groups: Groups, s: Gate, step: Step)
    requires GateInv(groups, s) && Enabled(s, step) && Next(groups, s, step).cycle.InCycle?
    ensures var t := Next(groups, s, step);
            if step.Start? then t.cycle.snapshot == Assigned(t)
            else
              && t.cycle == s.cycle
              && (step.Forget? ==> step.pod in Assigned(s))
              && Assigned(t) == (if step.Forget? then Assigned(s) - {step.pod} else Assigned(s))
  {
  }

  /** A release really leaves MinMember released pods exactly when the group's rejected pods still in the
      cache and those forgotten during the cycle are within the snapshot's surplus; the count itself looks at
      neither. With no surplus there must be none of either kind. */
  lemma ReleaseIsFullGangExactly(groups: Groups, steps: seq<Step>)
    requires Possible(groups, steps) && Run(groups, steps).cycle.InCycle?
    requires var s := Run(groups, steps);
             Decide(groups, s.cycle.pod, |Of(s.cycle.snapshot, KeyOf(s.cycle.pod))|) == Success
    ensures var s := Run(groups, steps);
            var g := KeyOf(s.cycle.pod);
            var full := |Of(Next(groups, s, Permit).released, g)| >= groups[g];
            var surplus := |Of(s.cycle.snapshot, g)| + 1 - groups[g];
            var rejected, forgotten := Of(s.rejected, g), Of(ForgottenInCycle(steps), g);
            && (full <==> |rejected| + |forgotten| <= surplus)
            && (surplus == 0 ==> (full <==> rejected == {} && forgotten == {}))
  {
    hide Of, Run, Possible, ForgottenInCycle;
    GateAlways(groups, steps);
    SnapshotSplits(groups, steps);
    ReleaseSize(groups, Run(groups, steps), ForgottenInCycle(steps));
  }

  lemma ReleaseSize(groups: Groups, s: Gate, forgotten: set<Pod>)
    requires GateInv(groups, s) && s.cycle.InCycle?
    requires s.cycle.snapshot == Assigned(s) + forgotten && Assigned(s) !! forgotten
    requires Decide(groups, s.cycle.pod, |Of(s.cycle.snapshot, KeyOf(s.cycle.pod))|) == Success
    ensures var g := KeyOf(s.cycle.pod);
            |Of(Next(groups, s, Permit).released, g)|
            == |Of(s.cycle.snapshot, g)| + 1 - |Of(s.rejected, g)| - |Of(forgotten, g)|
  {
    hide Of, GateInv;
    var p, g := s.cycle.pod, KeyOf(s.cycle.pod);
    SnapshotCovers(groups, s);
    GateParts(groups, s);
    var after := Next(groups, s, Permit).released;
    assert Of(after, g) == Of(s.waiting + s.released + {p}, g) by { ReleasedGroup(s.waiting, s.released, p, g); }
    GrowGroup(s.waiting + s.released, p, g);
    JoinGroups(s.waiting + s.released, s.rejected, g);
    JoinGroups(s.waiting + s.released + s.rejected, forgotten, g);
    assert s.cycle.snapshot == s.waiting + s.released + s.rejected + forgotten;
  }

  lemma ReleasedGroup(waiting: set<Pod>, released: set<Pod>, p: Pod, g: GroupKey)
    ensures Of(released + Of(waiting, g) + {p}, g) == Of(waiting + released + {p}, g)
  {
  }

  lemma JoinGroups(a: set<Pod>, b: set<Pod>, g: GroupKey)
    requires a !! b
    ensures |Of(a + b, g)| == |Of(a, g)| + |Of(b, g)|
  {
    assert Of(a + b, g) == Of(a, g) + Of(b, g);
  }

  // ---- What each outcome does to whom ----

  predicate Siblings(p: Pod, q: Pod) {
    p.namespace == q.namespace && p.groupLabel == q.groupLabel
  }

  /** The pod names a group, and its PodGroup exists. */
  predicate Grouped(groups: Groups, p: Pod) {
    p.groupLabel != "" && GroupKey(p.namespace, p.groupLabel) in groups
  }

  /** The group has MinMember pods in the snapshot, and `extra` more. */
  ghost predicate Enough(groups: Groups, p: Pod, snapshot: set<Pod>, extra: int)
    requires Grouped(groups, p)
  {
    |set q | q in snapshot && Siblings(q, p)| + extra >= groups[GroupKey(p.namespace, p.groupLabel)]
  }

  lemma EnoughIsDecided(groups: Groups, p: Pod, snapshot: set<Pod>, extra: int)
    requires Grouped(groups, p)
    ensures Enough(groups, p, snapshot, extra) <==> |Of(snapshot, KeyOf(p))| + extra >= groups[KeyOf(p)]
  {
    assert (set q | q in snapshot && Siblings(q, p)) == Of(snapshot, KeyOf(p));
  }

  /** The steps that turn a group away: a pod of it is unreserved, its cycle is abandoned after Permit, or it
      fits nowhere while the group has too few assigned. */
  ghost predicate TurnsAway(groups: Groups, s: Gate, step: Step, p: Pod)
    requires Grouped(groups, p)
  {
    || step == Unreserve(p)
    || (s.cycle.InCycle? && s.cycle.pod == p
        && (step == Abandon || (step == PostFilter && !Enough(groups, p, s.cycle.snapshot, 0))))
  }

  /** Then every waiting pod of the group is rejected, and nobody else is moved. */
  lemma GroupIsTurnedAway(groups: Groups, s: Gate, step: Step, p: Pod, q: Pod)
    requires Grouped(groups, p) && Enabled(s, step) && TurnsAway(groups, s, step, p)
    ensures var t := Next(groups, s, step);
            && (q in t.waiting <==> q in s.waiting && !Siblings(q, p))
            && (q in t.rejected <==> q in s.rejected || (q in s.waiting && Siblings(q, p)))
            && (q in t.released <==> q in s.released)
            && t.cycle == (if step == Unreserve(p) then s.cycle else NoCycle)
  {
    hide Enough;
    if s.cycle.InCycle? {
      EnoughIsDecided(groups, p, s.cycle.snapshot, 0);
    }
  }

  /** The steps that might have turned pods away and do not: there is no group, or the group has enough
      assigned when a pod of it fits nowhere. */
  ghost predicate Spares(groups: Groups, s: Gate, step: Step, p: Pod) {
    || (step == Unreserve(p) && !Grouped(groups, p))
    || (s.cycle.InCycle? && s.cycle.pod == p && step == Abandon && !Grouped(groups, p))
    || (s.cycle.InCycle? && s.cycle.pod == p && step == PostFilter
        && (Grouped(groups, p) ==> Enough(groups, p, s.cycle.snapshot, 0)))
  }

  /** Then nobody is moved. */
  lemma NobodyIsTurnedAway(groups: Groups, s: Gate, step: Step, p: Pod)
    requires Enabled(s, step) && Spares(groups, s, step, p)
    ensures Next(groups, s, step) == s.(cycle := if step == Unreserve(p) then s.cycle else NoCycle)
  {
    hide Enough;
    if s.cycle.InCycle? && Grouped(groups, p) {
      EnoughIsDecided(groups, p, s.cycle.snapshot, 0);
    }
  }

  /** A timeout rejects one waiting pod, and forgetting frees one rejected or released pod of its assignment;
      nobody else is moved. */
  lemma OnePodMoves(groups: Groups, steps: seq<Step>, step: Step, q: Pod)
    requires Possible(groups, steps) && Enabled(Run(groups, steps), step) && (step.Timeout? || step.Forget?)
    ensures var s, t := Run(groups, steps), Next(groups, Run(groups, steps), step);
            && (q != step.pod ==> (q in t.waiting <==> q in s.waiting) && (q in t.rejected <==> q in s.rejected)
                                  && (q in t.released <==> q in s.released))
            && (step.Timeout? ==> step.pod in t.rejected && step.pod !in t.waiting)
            && (step.Forget? ==> step.pod !in Assigned(t))
            && t.cycle == s.cycle
  {
    hide Run, Possible;
    GateAlways(groups, steps);
  }

  /** Who is where after Permit: the cycle's pod is released if it names no group or makes up the number,
      waits if it is one of too few, and is neither if its PodGroup is missing; the waiting pods of its group
      are released with it when it makes up the number, and nobody else is moved. */
  lemma PermitMovesExactly(groups: Groups, steps: seq<Step>, q: Pod)
    requires Possible(groups, steps) && Run(groups, steps).cycle.InCycle?
    ensures var s := Run(groups, steps);
            var p := s.cycle.pod;
            var made := Grouped(groups, p) && Enough(groups, p, s.cycle.snapshot, 1);
            var t := Next(groups, s, Permit);
            && (q in t.released <==> q in s.released || (q == p && (p.groupLabel == "" || made))
                                     || (q in s.waiting && Siblings(q, p) && made))
            && (q in t.waiting <==> (q in s.waiting && !(Siblings(q, p) && made))
                                    || (q == p && Grouped(groups, p) && !made))
            && t.rejected == s.rejected && t.cycle == NoCycle
  {
    hide Run, Possible, Enough;
    GateAlways(groups, steps);
    var s := Run(groups, steps);
    if Grouped(groups, s.cycle.pod) {
      EnoughIsDecided(groups, s.cycle.pod, s.cycle.snapshot, 1);
    }
  }

  // ---- Enough uninterrupted cycles let everyone through ----

  function RunCycles(groups: Groups, s: Gate, pods: seq<Pod>): Gate {
    if pods == [] then s
    else
      var t := RunCycles(groups, s, pods[..|pods| - 1]);
      Next(groups, Next(groups, t, Start(pods[|pods| - 1])), Permit)
  }

  ghost predicate Newcomers(s: Gate, pods: seq<Pod>, g: GroupKey) {
    && (forall i :: 0 <= i < |pods| ==> pods[i] !in Assigned(s) && KeyOf(pods[i]) == g)
    && (forall i, j :: 0 <= i < j < |pods| ==> pods[i] != pods[j])
  }

  lemma {:induction false} CyclesProgress(groups: Groups, s: Gate, pods: seq<Pod>, g: GroupKey)
    requires s.cycle.NoCycle? && g in groups && g.name != "" && Newcomers(s, pods, g)
    ensures var t := RunCycles(groups, s, pods);
            && t.cycle.NoCycle? && t.rejected == s.rejected && s.released <= t.released
            && Assigned(t) == Assigned(s) + (set p | p in pods)
            && |Of(Assigned(t), g)| == |Of(Assigned(s), g)| + |pods|
            && (pods != [] && |Of(Assigned(s), g)| + |pods| >= groups[g] ==> Of(t.waiting, g) == {})
  {
    hide Next, Of, Assigned;
    if pods != [] {
      var n := |pods| - 1;
      var p := pods[n];
      CyclesProgress(groups, s, pods[..n], g);
      var t := RunCycles(groups, s, pods[..n]);
      assert p !in Assigned(t);
      OneCycle(groups, t, p, g);
      assert (set q | q in pods) == (set q | q in pods[..n]) + {p};
    } else {
      assert (set p | p in pods) == {};
    }
  }

  lemma OneCycle(groups: Groups, t: Gate, p: Pod, g: GroupKey)
    requires t.cycle.NoCycle? && g in groups && g.name != "" && KeyOf(p) == g && p !in Assigned(t)
    ensures var u := Next(groups, Next(groups, t, Start(p)), Permit);
            && u.cycle.NoCycle? && u.rejected == t.rejected && t.released <= u.released
            && Assigned(u) == Assigned(t) + {p}
            && |Of(Assigned(u), g)| == |Of(Assigned(t), g)| + 1
            && (|Of(Assigned(t), g)| + 1 >= groups[g] ==> Of(u.waiting, g) == {})
  {
    hide Of;
    var u := Next(groups, Next(groups, t, Start(p)), Permit);
    GroupInside(t.waiting, g);
    assert Assigned(u) == Assigned(t) + {p};
    GrowGroup(Assigned(t), p, g);
  }

  lemma GroupInside(ps: set<Pod>, g: GroupKey)
    ensures Of(ps, g) <= ps && Of(ps - Of(ps, g), g) == {}
  {
  }

  /** MinMember uninterrupted cycles of distinct pods of a group release them all, and with them every pod
      of the group that was waiting. */
  lemma EnoughCyclesReleaseAll(groups: Groups, steps: seq<Step>, pods: seq<Pod>, g: GroupKey)
    requires Possible(groups, steps) && Run(groups, steps).cycle.NoCycle?
    requires g in groups && g.name != "" && Newcomers(Run(groups, steps), pods, g)
    requires pods != [] && |Of(Assigned(Run(groups, steps)), g)| + |pods| >= groups[g]
    ensures var t := RunCycles(groups, Run(groups, steps), pods);
            && (forall p :: p in pods ==> p in t.released)
            && Of(Run(groups, steps).waiting, g) <= t.released
  {
    var s := Run(groups, steps);
    GateAlways(groups, steps);
    CyclesProgress(groups, s, pods, g);
    var t := RunCycles(groups, s, pods);
    forall p | p in pods || p in Of(s.waiting, g) ensures p in t.released {
      assert p in Assigned(t) && p !in s.rejected;
      assert KeyOf(p) == g;
      assert p !in Of(t.waiting, g);
    }
  }

  // ---- A stale count can break the gang ----

  /** With MinMember 2: one pod waits and times out, and before it is forgotten the next pod counts it. */
  lemma StaleCountBreaksGang()
    ensures
      var a, b := Pod("ns", "a", "g"), Pod("ns", "b", "g");
      var groups := map[GroupKey("ns", "g") := 2];
      var steps := [Start(a), Permit, Timeout(a), Start(b), Permit];
      Possible(groups, steps) && Run(groups, steps) == Gate({}, {a}, {b}, NoCycle)
  {
    var a, b := Pod("ns", "a", "g"), Pod("ns", "b", "g");
    var groups := map[GroupKey("ns", "g") := 2];
    var s1 := [Start(a)];
    Extend(groups, [], Start(a));
    Extend(groups, s1, Permit);
    var s2 := s1 + [Permit];
    assert Of({}, KeyOf(a)) == {};
    assert Run(groups, s2) == Gate({a}, {}, {}, NoCycle);
    Extend(groups, s2, Timeout(a));
    var s3 := s2 + [Timeout(a)];
    assert Run(groups, s3) == Gate({}, {a}, {}, NoCycle);
    Extend(groups, s3, Start(b));
    var s4 := s3 + [Start(b)];
    assert Run(groups, s4).cycle == InCycle(b, {a});
    assert Of({a}, KeyOf(b)) == {a};
    Extend(groups, s4, Permit);
    assert s4 + [Permit] == [Start(a), Permit, Timeout(a), Start(b), Permit];
  }

  lemma Extend(groups: Groups, steps: seq<Step>, step: Step)
    requires Possible(groups, steps) && Enabled(Run(groups, steps), step)
    ensures Possible(groups, steps + [step])
    ensures Run(groups, steps + [step]) == Next(groups, Run(groups, steps), step)
  {
    assert (steps + [step])[..|steps|] == steps;
  }
}
