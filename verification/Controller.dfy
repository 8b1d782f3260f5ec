/** The PodGroup controller: creation time, size and phase, one reconcile at a time until the group is deleted. */
module Controller {
  import opened Decimal
  import opened GoInt
  import opened Wrappers

  datatype Phase = Unset | Pending | Scheduling | Running | Finished | Failed | OtherPhase

  datatype PodPhase = PodPending | PodRunning | PodSucceeded | PodFailed | PodUnknown

  type Time = nat

  /** The zero time means not set. */
  const ZERO_TIME: Time := 0

  /** The creation label: missing, not a timestamp, or one (which may be the zero time). */
  datatype TimeLabel = Absent | Unparsable | Stamp(time: Time)

  /** A missing size label reads as the empty string. */
  datatype Pod = Pod(name: string, phase: PodPhase, created: TimeLabel, sizeLabel: string)

  datatype Group = Group(
    creationTime: Time,
    minMember: int,
    phase: Phase,
    running: int,
    succeeded: int,
    failed: int)

  const FRESH := Group(ZERO_TIME, 0, Unset, 0, 0, 0)

  datatype Outcome = Requeue | Stop | Deleted

  function CountPhase(pods: seq<Pod>, phase: PodPhase): nat {
    if pods == [] then 0
    else CountPhase(pods[..|pods| - 1], phase) + (if pods[|pods| - 1].phase == phase then 1 else 0)
  }

  /** What `updateStatus` makes of a phase. The later conditions overrule the earlier ones. */
  function NextPhase(phase: Phase, pods: seq<Pod>, m: int): Phase {
    match phase
    case Unset => Pending
    case Pending => if |pods| >= m then Scheduling else Pending
    case _ =>
      if |pods| < m then Pending
      else
        var running, succeeded := CountPhase(pods, PodRunning), CountPhase(pods, PodSucceeded);
        var failed := CountPhase(pods, PodFailed);
        if succeeded >= m then Finished
        else if failed != 0 && failed + running + succeeded >= m then Failed
        else if succeeded + running >= m then Running
        else Scheduling
  }

  predicate Terminal(phase: Phase) {
    phase == Finished || phase == Failed
  }

  /** The counters are refreshed only in the branch that looks at them. */
  function UpdatedStatus(g: Group, pods: seq<Pod>): (Group, Outcome) {
    var p := NextPhase(g.phase, pods, g.minMember);
    var h := g.(phase := p);
    var counted := g.phase != Unset && g.phase != Pending && |pods| >= g.minMember;
    var t := if counted
             then h.(running := CountPhase(pods, PodRunning), succeeded := CountPhase(pods, PodSucceeded),
                     failed := CountPhase(pods, PodFailed))
             else h;
    (t, if Terminal(p) then Deleted else Requeue)
  }

  function EffectiveTime(pods: seq<Pod>, timestamp: Time): Time {
    if pods != [] && pods[0].created.Stamp? then pods[0].created.time else timestamp
  }

  function EffectiveSize(pods: seq<Pod>): int {
    if pods != [] && ParseInt32(pods[0].sizeLabel).Some? then ParseInt32(pods[0].sizeLabel).value
    else ToInt32(|pods|)
  }

  /** One reconcile of an existing group. */
  function Reconciled(g: Group, pods: seq<Pod>, timestamp: Time, twoDaysOld: bool): (Group, Outcome) {
    if Terminal(g.phase) then (g, Stop)
    else if (g.phase == Scheduling || g.phase == Pending) && g.running == 0 && twoDaysOld then (g, Stop)
    else if g.creationTime == ZERO_TIME then (g.(creationTime := EffectiveTime(pods, timestamp)), Requeue)
    else if g.minMember == 0 then (g.(minMember := EffectiveSize(pods)), Requeue)
    else UpdatedStatus(g, pods)
  }

  // ---- The program ----

  method GetCurrentPodStats(pods: seq<Pod>) returns (running: int, succeeded: int, failed: int)
    ensures running == CountPhase(pods, PodRunning)
    ensures succeeded == CountPhase(pods, PodSucceeded)
    ensures failed == CountPhase(pods, PodFailed)
  {
    running, succeeded, failed := 0, 0, 0;
    if |pods| == 0 {
      return;
    }
    for i := 0 to |pods|
      invariant running == CountPhase(pods[..i], PodRunning)
      invariant succeeded == CountPhase(pods[..i], PodSucceeded)
      invariant failed == CountPhase(pods[..i], PodFailed)
    {
      assert pods[..i + 1][..i] == pods[..i];
      match pods[i].phase {
        case PodRunning => running := running + 1;
        case PodSucceeded => succeeded := succeeded + 1;
        case PodFailed => failed := failed + 1;
        case _ =>
      }
    }
    assert pods[..|pods|] == pods;
  }

  class PodGroup {
    var creationTime: Time
    var minMember: int
    var phase: Phase
    var running: int
    var succeeded: int
    var failed: int

    function View(): Group
      reads this
    {
      Group(creationTime, minMember, phase, running, succeeded, failed)
    }

    constructor ()
      ensures View() == FRESH
    {
      creationTime, minMember, phase := ZERO_TIME, 0, Unset;
      running, succeeded, failed := 0, 0, 0;
    }

    method SetTimeCreated(pods: seq<Pod>, timestamp: Time)
      modifies this`creationTime
      ensures creationTime == EffectiveTime(pods, timestamp)
    {
      creationTime := timestamp;
      if |pods| > 0 {
        match pods[0].created {
          case Stamp(t) => creationTime := t;
          case _ =>
        }
      }
    }

    method UpdatePodGroupSize(size: int, pods: seq<Pod>)
      requires size == ToInt32(|pods|)
      modifies this`minMember
      ensures minMember == EffectiveSize(pods)
    {
      minMember := size;
      if |pods| > 0 {
        var parsed := ParseInt32(pods[0].sizeLabel);
        if parsed.Some? {
          minMember := parsed.value;
        }
      }
    }

    method UpdateStatus(pods: seq<Pod>) returns (outcome: Outcome)
      modifies this
      ensures (View(), outcome) == UpdatedStatus(old(View()), pods)
    {
      hide CountPhase;
      match phase {
        case Unset =>
          phase := Pending;
        case Pending =>
          if |pods| >= minMember {
            phase := Scheduling;
          }
        case _ =>
          if |pods| < minMember {
            phase := Pending;
          } else {
            var r, s, f := GetCurrentPodStats(pods);
            if s + r < minMember {
              phase := Scheduling;
            }
            if s + r >= minMember {
              phase := Running;
            }
            if f != 0 && f + r + s >= minMember {
              phase := Failed;
            }
            if s >= minMember {
              phase := Finished;
            }
            running, failed, succeeded := r, f, s;
          }
      }
      if phase == Finished || phase == Failed {
        return Deleted;
      }
      outcome := Requeue;
    }

    method Reconcile(pods: seq<Pod>, timestamp: Time, twoDaysOld: bool) returns (outcome: Outcome)
      modifies this
      ensures (View(), outcome) == Reconciled(old(View()), pods, timestamp, twoDaysOld)
    {
      if phase == Finished || phase == Failed {
        return Stop;
      }
      if (phase == Scheduling || phase == Pending) && running == 0 && twoDaysOld {
        return Stop;
      }
      if creationTime == ZERO_TIME {
        SetTimeCreated(pods, timestamp);
        return Requeue;
      }
      if minMember == 0 {
        UpdatePodGroupSize(ToInt32(|pods|), pods);
        return Requeue;
      }
      outcome := UpdateStatus(pods);
    }
  }

  // ---- When a call stops, and what the first ones set ----

  /** A call stops, changing nothing, exactly for a terminal group and for one that has been Scheduling or
      Pending without a running pod for more than two days; it deletes only what has just become terminal. */
  lemma StopsExactly(g: Group, pods: seq<Pod>, timestamp: Time, twoDaysOld: bool)
    ensures var (h, outcome) := Reconciled(g, pods, timestamp, twoDaysOld);
            && (outcome == Stop <==>
                  || g.phase == Finished || g.phase == Failed
                  || ((g.phase == Scheduling || g.phase == Pending) && g.running == 0 && twoDaysOld))
            && (outcome == Stop ==> h == g)
            && (outcome == Deleted <==> outcome != Stop && (h.phase == Finished || h.phase == Failed))
  {
  }

  /** The counters of the status are as counted, except that they stay put before Scheduling and while pods
      are missing. */
  lemma CountersRefreshExactly(g: Group, pods: seq<Pod>)
    ensures var (h, _) := UpdatedStatus(g, pods);
            && h.creationTime == g.creationTime && h.minMember == g.minMember
            && (h.running, h.succeeded, h.failed)
               == if g.phase == Unset || g.phase == Pending || |pods| < g.minMember
                  then (g.running, g.succeeded, g.failed)
                  else (CountPhase(pods, PodRunning), CountPhase(pods, PodSucceeded), CountPhase(pods, PodFailed))
  {
  }

  /** The first call sets the time on the first pod's label, or its own if there is none that parses. The next
      sets the size: the number printed on the first pod, or else the number of pods. */
  lemma FirstCallsSet(pods: seq<Pod>, timestamp: Time, stamp: Time, size: int)
    requires INT32_MIN <= size <= INT32_MAX && |pods| <= INT32_MAX
    requires timestamp != ZERO_TIME && stamp != ZERO_TIME
    ensures var time := AfterCalls(FRESH, pods, timestamp, 1).0.creationTime;
            && (pods != [] && pods[0].created == Stamp(stamp) ==> time == stamp)
            && (pods == [] || !pods[0].created.Stamp? ==> time == timestamp)
    ensures var minMember := AfterCalls(FRESH, pods, timestamp, 2).0.minMember;
            (pods == [] || pods[0].created != Stamp(ZERO_TIME)) ==>
              && (pods != [] && pods[0].sizeLabel == Print(size) ==> minMember == size)
              && (pods == [] || NoNumber(pods[0].sizeLabel) ==> minMember == |pods|)
  {
    hide ParseInt32, Print;
    assert AfterCalls(FRESH, pods, timestamp, 0) == (FRESH, Requeue);
    assert AfterCalls(FRESH, pods, timestamp, 1) == (FRESH.(creationTime := EffectiveTime(pods, timestamp)), Requeue);
    ParsePrint(size);
    if pods != [] {
      NoNumberParses(pods[0].sizeLabel);
    }
  }

  /** Empty, as a missing label reads, or with something other than a digit behind its first character. */
  ghost predicate NoNumber(s: string) {
    s == "" || exists i :: 1 <= i < |s| && !IsDigit(s[i])
  }

  lemma NoNumberParses(s: string)
    ensures NoNumber(s) ==> ParseInt32(s) == None
  {
    if i :| 1 <= i < |s| && !IsDigit(s[i]) {
      assert s[1..][i - 1] == s[i];
    }
  }

  // ---- Confluence ----

  /** A terminal phase is left alone; the group is gone. */
  function StepPhase(phase: Phase, pods: seq<Pod>, m: int): Phase {
    if Terminal(phase) then phase else NextPhase(phase, pods, m)
  }

  function Iterate(phase: Phase, pods: seq<Pod>, m: int, n: nat): Phase {
    if n == 0 then phase else StepPhase(Iterate(phase, pods, m, n - 1), pods, m)
  }

  /** Where the phase settles, read off the pods and MinMember alone. */
  function Destination(pods: seq<Pod>, m: int): Phase {
    var running, succeeded := CountPhase(pods, PodRunning), CountPhase(pods, PodSucceeded);
    var failed := CountPhase(pods, PodFailed);
    if |pods| < m then Pending
    else if succeeded >= m then Finished
    else if failed > 0 && running + succeeded + failed >= m then Failed
    else if running + succeeded >= m then Running
    else Scheduling
  }

  /** From any phase that is not terminal the group reaches one and the same phase in at most three
      steps, and stays there or is deleted. */
  lemma {:induction false} PhaseConfluence(phase: Phase, pods: seq<Pod>, m: int, n: nat)
    requires !Terminal(phase) && n >= 3
    ensures Iterate(phase, pods, m, n) == Destination(pods, m)
    ensures var end := Iterate(phase, pods, m, n);
            var succeeded := CountPhase(pods, PodSucceeded);
            var active := CountPhase(pods, PodRunning) + succeeded;
            var failed := CountPhase(pods, PodFailed);
            && (end == Pending <==> |pods| < m)
            && (end == Finished <==> succeeded >= m && |pods| >= m)
            && (end == Failed <==> succeeded < m && failed > 0 && active + failed >= m && |pods| >= m)
            && (end == Running <==> succeeded < m && active >= m && failed == 0 && |pods| >= m)
            && (end == Scheduling <==> active < m <= |pods| && (failed == 0 || active + failed < m))
  {
    hide CountPhase;
    if n == 3 {
      var one := StepPhase(phase, pods, m);
      var two := StepPhase(one, pods, m);
      assert Iterate(phase, pods, m, 0) == phase;
      assert Iterate(phase, pods, m, 1) == one;
      assert Iterate(phase, pods, m, 2) == two;
    } else {
      PhaseConfluence(phase, pods, m, n - 1);
    }
  }

  /** With no pod succeeded, the phase settles at Finished exactly when MinMember is not positive. */
  lemma UnearnedFinishExactly(pods: seq<Pod>, m: int)
    requires CountPhase(pods, PodSucceeded) == 0
    ensures Destination(pods, m) == Finished <==> m <= 0
  {
  }

  // ---- No regression from Running ----

  /** Pods only move forward. */
  predicate Advances(a: PodPhase, b: PodPhase) {
    || a == b
    || (a == PodPending && (b == PodRunning || b == PodSucceeded || b == PodFailed))
    || (a == PodRunning && (b == PodSucceeded || b == PodFailed))
  }

  predicate NamesDiffer(pods: seq<Pod>) {
    forall i, j :: 0 <= i < j < |pods| ==> pods[i].name != pods[j].name
  }

  ghost predicate Evolves(a: seq<Pod>, b: seq<Pod>) {
    && NamesDiffer(a) && NamesDiffer(b)
    && forall i :: 0 <= i < |a| ==> Continued(a[i], b)
  }

  ghost predicate Continued(p: Pod, b: seq<Pod>) {
    exists j :: 0 <= j < |b| && b[j].name == p.name && Advances(p.phase, b[j].phase)
  }

  predicate HasStarted(p: Pod) {
    p.phase == PodRunning || p.phase == PodSucceeded || p.phase == PodFailed
  }

  function Started(pods: seq<Pod>): set<string> {
    if pods == [] then {}
    else Started(pods[..|pods| - 1]) + (if HasStarted(pods[|pods| - 1]) then {pods[|pods| - 1].name} else {})
  }

  lemma {:induction false} StartedWhere(pods: seq<Pod>, name: string)
    ensures name in Started(pods) <==> exists i :: 0 <= i < |pods| && HasStarted(pods[i]) && pods[i].name == name
  {
    if pods != [] {
      var n := |pods| - 1;
      StartedWhere(pods[..n], name);
      assert forall i :: 0 <= i < n ==> pods[..n][i] == pods[i];
    }
  }

  lemma {:induction false} StartedCount(pods: seq<Pod>)
    requires NamesDiffer(pods)
    ensures |Started(pods)| == CountPhase(pods, PodRunning) + CountPhase(pods, PodSucceeded) + CountPhase(pods, PodFailed)
  {
    if pods != [] {
      var n := |pods| - 1;
      StartedCount(pods[..n]);
      StartedWhere(pods[..n], pods[n].name);
    }
  }

  /** The pods that have started never become fewer. */
  lemma StartedGrows(a: seq<Pod>, b: seq<Pod>)
    requires Evolves(a, b)
    ensures |Started(a)| <= |Started(b)| <= |b|
  {
    forall name | name in Started(a) ensures name in Started(b) {
      StartedWhere(a, name);
      StartedWhere(b, name);
      var i :| 0 <= i < |a| && HasStarted(a[i]) && a[i].name == name;
      assert Continued(a[i], b);
    }
    assert Started(b) == Started(a) + (Started(b) - Started(a));
    StartedBound(b);
  }

  lemma {:induction false} StartedBound(b: seq<Pod>)
    ensures |Started(b)| <= |b|
  {
    if b != [] {
      StartedBound(b[..|b| - 1]);
    }
  }

  /** The phase after the first k pod lists of a history. */
  function PhaseAfter(history: seq<seq<Pod>>, m: int, k: nat): Phase
    requires k <= |history|
  {
    if k == 0 then Unset else StepPhase(PhaseAfter(history, m, k - 1), history[k - 1], m)
  }

  ghost predicate Forward(history: seq<seq<Pod>>) {
    forall k :: 0 < k < |history| ==> Evolves(history[k - 1], history[k])
  }

  lemma RunningNeedsStarted(phase: Phase, pods: seq<Pod>, m: int)
    requires StepPhase(phase, pods, m) == Running
    ensures CountPhase(pods, PodRunning) + CountPhase(pods, PodSucceeded) >= m
  {
  }

  /** Over any history in which pods only move forward and none disappear, a group once Running is only
      Running, Failed or Finished ever after. */
  lemma {:induction false} RunningNeverRegresses(history: seq<seq<Pod>>, m: int, i: nat, j: nat)
    requires Forward(history) && i <= j <= |history|
    requires PhaseAfter(history, m, i) == Running
    ensures PhaseAfter(history, m, j) in {Running, Failed, Finished}
    decreases j
  {
    if i < j {
      RunningNeverRegresses(history, m, i, j - 1);
      if PhaseAfter(history, m, j - 1) == Running {
        assert j >= 2;
        var before, now := history[j - 2], history[j - 1];
        RunningNeedsStarted(PhaseAfter(history, m, j - 2), before, m);
        assert Evolves(before, now);
        StartedGrows(before, now);
        StartedCount(before);
        StartedCount(now);
      }
    }
  }

  // ---- Termination ----

  function PhaseRank(phase: Phase): nat {
    match phase
    case Unset => 3
    case Pending => 2
    case _ => 1
  }

  /** Reconcile calls left until the group is deleted. */
  function CallsLeft(g: Group): nat {
    (if g.creationTime == ZERO_TIME then 1 else 0) + (if g.minMember == 0 then 1 else 0) + PhaseRank(g.phase)
  }

  predicate AllSucceeded(pods: seq<Pod>) {
    forall i :: 0 <= i < |pods| ==> pods[i].phase == PodSucceeded
  }

  /** A time to set, a size to set of at least 1, and enough pods, all succeeded. */
  ghost predicate Completed(g: Group, pods: seq<Pod>, timestamp: Time) {
    && !Terminal(g.phase)
    && (g.creationTime == ZERO_TIME ==> EffectiveTime(pods, timestamp) != ZERO_TIME)
    && (var size := if g.minMember == 0 then EffectiveSize(pods) else g.minMember; 1 <= size <= |pods|)
    && AllSucceeded(pods)
  }

  lemma {:induction false} SucceededCount(pods: seq<Pod>)
    requires AllSucceeded(pods)
    ensures CountPhase(pods, PodSucceeded) == |pods|
  {
    if pods != [] {
      SucceededCount(pods[..|pods| - 1]);
    }
  }

  /** Each call but the last asks to be called again and leaves one call fewer. */
  lemma OneCallFewer(g: Group, pods: seq<Pod>, timestamp: Time)
    requires Completed(g, pods, timestamp)
    ensures var (h, outcome) := Reconciled(g, pods, timestamp, false);
            if CallsLeft(g) == 1 then outcome == Deleted && h.phase == Finished
            else outcome == Requeue && CallsLeft(h) == CallsLeft(g) - 1 && Completed(h, pods, timestamp)
  {
    SucceededCount(pods);
  }

  /** The group after n calls, and what the last of them answered. */
  function AfterCalls(g: Group, pods: seq<Pod>, timestamp: Time, n: nat): (Group, Outcome) {
    if n == 0 then (g, Requeue)
    else
      var (h, outcome) := AfterCalls(g, pods, timestamp, n - 1);
      if outcome == Requeue then Reconciled(h, pods, timestamp, false) else (h, outcome)
  }

  lemma {:induction false} DeletedAfterCallsLeft(g: Group, pods: seq<Pod>, timestamp: Time, n: nat)
    requires Completed(g, pods, timestamp) && n <= CallsLeft(g)
    ensures var (h, outcome) := AfterCalls(g, pods, timestamp, n);
            if n == CallsLeft(g) then outcome == Deleted && h.phase == Finished
            else outcome == Requeue && CallsLeft(h) == CallsLeft(g) - n && Completed(h, pods, timestamp)
  {
    hide Completed, Reconciled;
    if n > 0 {
      DeletedAfterCallsLeft(g, pods, timestamp, n - 1);
      OneCallFewer(AfterCalls(g, pods, timestamp, n - 1).0, pods, timestamp);
    }
  }

  /** A fresh group whose pods have all succeeded is deleted as Finished by its fifth reconcile, and each of
      the four before asks to be called again. */
  lemma FreshGroupFinishesInFive(pods: seq<Pod>, timestamp: Time)
    requires EffectiveTime(pods, timestamp) != ZERO_TIME
    requires 1 <= EffectiveSize(pods) <= |pods| && AllSucceeded(pods)
    ensures AfterCalls(FRESH, pods, timestamp, 5).1 == Deleted && AfterCalls(FRESH, pods, timestamp, 5).0.phase == Finished
    ensures forall n: nat :: n < 5 ==> AfterCalls(FRESH, pods, timestamp, n).1 == Requeue
  {
    hide AfterCalls;
    DeletedAfterCallsLeft(FRESH, pods, timestamp, 5);
    forall n: nat | n < 5 ensures AfterCalls(FRESH, pods, timestamp, n).1 == Requeue {
      DeletedAfterCallsLeft(FRESH, pods, timestamp, n);
    }
  }

  /** While the size reads as 0 the group is requeued unchanged, forever; any other size lets it go on. */
  lemma SizeZeroLoopsExactly(g: Group, pods: seq<Pod>, timestamp: Time)
    requires g.phase == Unset && g.creationTime != ZERO_TIME && g.minMember == 0
    ensures (forall n: nat :: AfterCalls(g, pods, timestamp, n) == (g, Requeue)) <==> EffectiveSize(pods) == 0
  {
    if EffectiveSize(pods) == 0 {
      forall n: nat ensures AfterCalls(g, pods, timestamp, n) == (g, Requeue) {
        StaysPut(g, pods, timestamp, n);
      }
    } else {
      assert AfterCalls(g, pods, timestamp, 0) == (g, Requeue);
      assert AfterCalls(g, pods, timestamp, 1) != (g, Requeue);
    }
  }

  /** A size that reads as negative is met by any pods: whatever they do, the fresh group is deleted as
      Finished by its fifth reconcile. */
  lemma NegativeSizeFinishes(pods: seq<Pod>, timestamp: Time)
    requires EffectiveTime(pods, timestamp) != ZERO_TIME && EffectiveSize(pods) < 0
    ensures AfterCalls(FRESH, pods, timestamp, 5)
         == (Group(EffectiveTime(pods, timestamp), EffectiveSize(pods), Finished, CountPhase(pods, PodRunning),
                   CountPhase(pods, PodSucceeded), CountPhase(pods, PodFailed)), Deleted)
  {
    hide EffectiveTime, EffectiveSize, CountPhase;
    var g1 := FRESH.(creationTime := EffectiveTime(pods, timestamp));
    var g2 := g1.(minMember := EffectiveSize(pods));
    assert AfterCalls(FRESH, pods, timestamp, 0) == (FRESH, Requeue);
    assert AfterCalls(FRESH, pods, timestamp, 1) == (g1, Requeue);
    assert AfterCalls(FRESH, pods, timestamp, 2) == (g2, Requeue);
    assert AfterCalls(FRESH, pods, timestamp, 3) == (g2.(phase := Pending), Requeue);
    assert AfterCalls(FRESH, pods, timestamp, 4) == (g2.(phase := Scheduling), Requeue);
  }

  lemma {:induction false} NotFinishedUnearned(pods: seq<Pod>, timestamp: Time, n: nat)
    requires CountPhase(pods, PodSucceeded) == 0 && EffectiveSize(pods) >= 0
    ensures var g := AfterCalls(FRESH, pods, timestamp, n).0;
            g.phase != Finished && (g.minMember == 0 || g.minMember == EffectiveSize(pods))
  {
    hide EffectiveTime, EffectiveSize, CountPhase;
    if n > 0 {
      NotFinishedUnearned(pods, timestamp, n - 1);
    }
  }

  /** With no pod succeeded, a fresh group is ever declared Finished if and only if its size reads as negative. */
  lemma FinishedUnearnedExactly(pods: seq<Pod>, timestamp: Time)
    requires EffectiveTime(pods, timestamp) != ZERO_TIME && CountPhase(pods, PodSucceeded) == 0
    ensures (exists n: nat :: AfterCalls(FRESH, pods, timestamp, n).0.phase == Finished) <==> EffectiveSize(pods) < 0
  {
    hide AfterCalls, EffectiveTime, EffectiveSize, CountPhase;
    if EffectiveSize(pods) < 0 {
      NegativeSizeFinishes(pods, timestamp);
    } else {
      forall n: nat ensures AfterCalls(FRESH, pods, timestamp, n).0.phase != Finished {
        NotFinishedUnearned(pods, timestamp, n);
      }
    }
  }

  /** So a size label "-3" has a group with its one pod still pending deleted as Finished. */
  lemma LabelMinusThree(timestamp: Time)
    requires timestamp != ZERO_TIME
    ensures var pods := [Pod("pod", PodPending, Absent, "-3")];
            AfterCalls(FRESH, pods, timestamp, 5) == (Group(timestamp, -3, Finished, 0, 0, 0), Deleted)
  {
    hide AfterCalls;
    var pods := [Pod("pod", PodPending, Absent, "-3")];
    assert Print(-3) == "-3";
    ParsePrint(-3);
    assert pods[..0] == [];
    NegativeSizeFinishes(pods, timestamp);
  }

  lemma {:induction false} StaysPut(g: Group, pods: seq<Pod>, timestamp: Time, n: nat)
    requires Reconciled(g, pods, timestamp, false) == (g, Requeue)
    ensures AfterCalls(g, pods, timestamp, n) == (g, Requeue)
  {
    if n > 0 {
      StaysPut(g, pods, timestamp, n - 1);
    }
  }
}
